# Verified models of the trading research and its audits

The repository holds a paper-trading stack, its audits, and a research tree of backtests, forward paper
tests and data collectors. This project models the parts whose behaviour is hard to see from one function
and proves what their authors rely on: that an audit verdict means a bijection between payments and raw
events, that forward ledgers never need revising, that an hourly engine agrees with a daily one, that
event-driven books stay inside their limits, that a resumable log reader loses and repeats nothing, and
that an append-only log reconstructs the state it was written from.

Money, prices, rates and returns are exact `real` numbers, times are `int`, a missing table cell or a
`None` is `Option`. What the programs obtain from the network, from files or from library statistics is
a parameter: an arbitrary function of the rows up to a day, an arbitrary sequence of replies, an arbitrary
log. Where a program changes variables step by step, the model is a method or a class proved against a
function of its inputs, and the theorems are about that function.

| file | module | component |
|---|---|---|
| `lists.dfy`, `sorting.dfy` | `Lists`, `Sorting` | filtering, grouping, sums and sorting of lists |
| `funding_model.dfy`, `funding_audit.dfy`, `funding_theorems.dfy` | `FundingModel`, `FundingAudit`, `FundingTheorems` | the funding reconciliation |
| `engine.dfy`, `hourly.dfy` | `Sums`, `Engine`, `Hourly` | the daily and the hourly engine |
| `listing.dfy`, `overlay.dfy`, `sleeves.dfy`, `ledger.dfy` | `Listing`, `Overlay`, `Sleeves`, `ForwardLedger` | event books, drawdown brake, forward test, its ledger |
| `bonds.dfy` | `Bonds` | the cash book on prediction markets |
| `orb.dfy`, `sweep.dfy`, `slots.dfy`, `paper.dfy` | `OpeningRange`, `SweepLine`, `SlotBooks`, `PaperBook` | books under risk, cash, slot and weight limits |
| `watcher.dfy`, `watch.dfy`, `sniper.dfy` | `Watcher`, `WatchLog`, `SniperProtocol` | the market-list log, its two readers, crash recovery |
| `buffered.dfy` | `Hysteresis` | buffered long and short states |
| `funding_fetch.dfy` | `FundingFetch` | paged and resumed fetching |
| `smart.dfy` | `SmartBook` | lazily priced books and their ledgers |
| `limiter.dfy` | `RateLimiter` | the shared request limiter |

What the models found about the code:

- `fwd_sniper.py` removes a trigger from `pending` before it writes the ledger line. If that write raises and
  the state is then saved, the trigger is lost; `SniperProtocol.LostTrigger` gives such a run.
  `SniperProtocol.LostExactly` says, for all runs with any crashes and failures, that a trigger is lost exactly
  when its line failed to be written, no crash before the next save undid the drop, and no other line has it.
- The engines do not agree on every once-a-day book. A day without a trade inside a symbol's life makes `bt.run`
  charge the delisting penalty, while `fill_interior` fills the hours flat (`Hourly.MissingDay`). And `hold_every`
  forward-fills per cell, so a row that omits a held symbol keeps its old weight, while `bt.run` closes it
  (`Hourly.OmittedSymbol`). `Hourly.HourlyPartsAgree` shows that without these two they agree, and only then.
- `run_with_override` replaces a stopped day's return exactly, except on a symbol's last bar, where the move to
  the last close is counted as well: `Listing.LastBarBook` is such a book, and `Engine.OverrideExactly` says that
  the substitution is exact exactly when no stop falls on a last bar that closes away from its open.
- `funding_window` drops events when a window of at most a minute holds more than one page
  (`FundingFetch.CrowdedMinute`), and only then (`FundingFetch.WindowComplete`).
- `watch_upbit.py` logs no flags for a market in the line that adds it, so the log does not hold the flags of a
  market added with flags until they change (`Watcher.AddedWithFlag`; exactly these by
  `Watcher.LogReconstructs`). Its documentation says the logger waits when the per-second budget is low; the
  wait it then takes is never longer than the normal second (`Watcher.Process.Turn`).
- `buffered` means what its documentation says for exactly the levels with `1 - enter < hold <= enter` and
  `enter > 1/2` (`Hysteresis.ExplainedExactly`).

## Model

| member | source | states |
|---|---|---|
| FundingAudit.PerpetualLegs | scripts/funding_payment_audit.py:48-72 | the loop over both legs yields the pairs and the error count of the payload |
| FundingModel.ScanLegsMeaning | scripts/funding_payment_audit.py:48-72 | a pair is listed exactly when a complete perpetual leg names it, `leg_a` decides its side, and there is no error exactly when both legs are sound and never on both sides of one pair |
| FundingAudit.IndexPositions | scripts/funding_payment_audit.py:86-112 | the position, leg and target dictionaries hold the last row of each key, and the payload and target counters are numbers of violations |
| FundingAudit.CountDuplicates | scripts/funding_payment_audit.py:114-134 | the duplicate counter is the number of payments minus the number of distinct identities |
| FundingAudit.CheckPayments | scripts/funding_payment_audit.py:114-188 | payments are grouped by position and by leg without loss, and each payment counter is the number of payments that violate its check |
| FundingAudit.CheckPositions | scripts/funding_payment_audit.py:218-289 | each per-position counter is the sum of that check's violations over the positions |
| FundingAudit.AuditFundingPayments | scripts/funding_payment_audit.py:75-346 | all counters of the report are numbers of violations of declarative checks, and `ok` holds exactly when every check is clean |
| FundingTheorems.OkMeansReconciled | scripts/funding_payment_audit.py:291-313 | with distinct position ids the verdict holds exactly when payments, positions and history reconcile: a payment fits one position's leg, event, interval, notional and signed amount, every held event is paid, targets are met in time, markers and totals agree |
| FundingTheorems.LegsMeaning | scripts/funding_payment_audit.py:48-72 | the perpetual legs are those the payload names, each on the side it names, and the payload has no error exactly when its legs are sound and never disagree |
| FundingTheorems.VerdictReordered | scripts/funding_payment_audit.py:75-346 | the verdict is unchanged by any reordering of positions, payments or history |
| FundingTheorems.PaymentsAreTheHeldEvents | scripts/funding_payment_audit.py:218-313 | when clean, with a history unique per exchange, symbol and time and none after the observation, a position's payments are in bijection with the raw events of its legs in (opened, min(closed, observed)] |
| FundingTheorems.LongsPayShortsReceive | scripts/funding_payment_audit.py:161-165 | when clean, every payment of a long leg is minus capital times rate to within the tolerance, and every payment of a short leg is plus that |
| FundingTheorems.FundingPnlBound | scripts/funding_payment_audit.py:146-313 | when clean, the persisted funding PnL is within (n + 1) tolerances of capital times rate over the held events of the short legs minus that over those of the long legs, n being the number of payments |
| Engine.DayOfOne | research/strategy_search/bt.py:63-90 | a day of a book in one symbol earns the weight times the move to the next open (on the last bar to the close), less a fiftieth of its size there, the settled rate, and the fee and volume tier on what changed |
| Engine.OverrideSubstitutes | research/strategy_search/bt_listing.py:92-98 | the corrected PnL is the PnL with the stop return in place of the day's return, plus the move to the last close where a stop falls on a symbol's last bar |
| Engine.OverrideExactly | research/strategy_search/bt_listing.py:92-98 | the substitution is exact for every book exactly when no stop falls on a symbol's last bar that closes away from its open |
| Listing.StopFill | research/strategy_search/bt_listing.py:61-67 | the return that replaces a stop day's implies a fill at the worse of the day's open and the stop, and half a percent worse still, for shorts and for longs |
| Listing.LastBarBook | research/strategy_search/bt_listing.py:92-98 | a book of `listing_book` whose stop falls on the symbol's last bar, where the correction does not substitute the stop return |
| Listing.ScanMeaning | research/strategy_search/bt_listing.py:32-76 | the forward scan of an event holds and stops exactly on the days the declarative definition names |
| Listing.HeldMeaning | research/strategy_search/bt_listing.py:41-66 | an event is held from its delay on for at most its holding time, never on the last bar of the table, with enough volume before the decision, a bar on every day so far and no day before that lost its stop |
| Listing.BookEvent | research/strategy_search/bt_listing.py:32-76 | one event writes its position exactly on the days before it is held, its stop return on its stop day, and nothing else |
| Listing.RawRowMeaning | research/strategy_search/bt_listing.py:32-76 | before the cap a symbol has a weight on a day exactly when some event of it is held on the next day, and the weight is the rule's position |
| Listing.OverrideRowMeaning | research/strategy_search/bt_listing.py:61-69 | a symbol has a stop return on exactly the days some event of it stops, and it is that of the last such event |
| Listing.CappedMeaning | research/strategy_search/bt_listing.py:74-75 | capping keeps symbols, signs and ratios, leaves a row within the cap alone and brings one above it to the cap exactly |
| Listing.CapRow | research/strategy_search/bt_listing.py:74-75 | the row returned has the lesser of the gross and the cap as its gross |
| Listing.ListingBook | research/strategy_search/bt_listing.py:32-76 | the tables written in place are, row by row, the capped positions and the stop returns of all events, and no row has a gross above the cap |
| Listing.BitcoinHedged | research/strategy_search/bt_listing.py:79-87 | a row hedged with Bitcoin has no net notional |
| Listing.BasketHedged | research/strategy_search/bt_listing.py:83-89 | a row hedged with the basket has no net notional when a live symbol is not held, and is unchanged otherwise |
| Overlay.LeverageMeaning | research/strategy_search/combo.py:33-34 | leverage is between zero and its cap, zero without a usable volatility, and below the cap leverage times volatility is the target |
| Overlay.RunOverlay | research/strategy_search/combo.py:32-43 | the array filled by the loop is the braked series of the trailing leverages |
| Overlay.OverlayFrom | research/strategy_search/fwd_run.py:79-92 | the live overlay is zero before the start row and from there on the same braked fold on the suffix with the same leverages |
| Overlay.BrakeBound | research/strategy_search/combo.py:32-43 | with returns at least -rho and leverage times rho below 1, equity stays positive and, after n consecutive braked days, at least peak x (1 - dd) x (1 - L rho) x (1 - brake L rho)^n |
| Overlay.NeverRuined | research/strategy_search/combo.py:32-43 | so for any volatilities an overlay whose cap times the worst return is below 1 keeps its equity positive and above that floor |
| Sleeves.EventWeightsCausal | research/strategy_search/bt_listing.py:32-89 | appending bars leaves the event book's hedged weights of all earlier rows unchanged |
| Sleeves.EventOverrideCausal | research/strategy_search/bt_listing.py:32-76 | appending bars leaves the stop returns of final days unchanged |
| Sleeves.RankWeightsCausal | research/strategy_search/bt.py:93-102 | appending bars leaves volatility-targeted rank weights of earlier rows unchanged |
| Sleeves.VolScaleMeaning | research/strategy_search/bt.py:93-102 | the scale of a rank book is zero without a deviation, at most ten, and below ten it brings the deviation to the target |
| Sleeves.PortIsGross | research/strategy_search/bt.py:93-98 | the returns the volatility target reads are the gross profit the engine gives the unscaled book, on every day on which no held symbol has its last bar |
| Sleeves.EventDay | research/strategy_search/fwd_run.py:39-76 | a day of an event sleeve is the capped and hedged row decided the day before at that day's prices, rates and yesterday's slippage, with the stop returns of the events that stop on it in place of theirs |
| Sleeves.SleevePnlStable | research/strategy_search/fwd_run.py:39-76 | for every sleeve, yesterday's final PnL series is a prefix of the one recomputed from today's tables |
| Sleeves.BaseMeaning | research/strategy_search/fwd_run.py:108-110 | the base holds exactly the days from the first row on with a sleeve of usable volatility, with the mean over those sleeves of profit per volatility |
| Sleeves.BaseExtends | research/strategy_search/fwd_run.py:106-111 | the equal-risk base series only grows at its end |
| ForwardLedger.ProfitsFromStable | research/strategy_search/fwd_run.py:79-92 | the overlay from the start day only grows at its end |
| ForwardLedger.ComputeLines | research/strategy_search/fwd_run.py:129-150 | the loop over the risk levels and over the days from the start row on yields the lines of all levels |
| ForwardLedger.LinesMeaning | research/strategy_search/fwd_run.py:79-92 | a run computes, for every risk level and every day of the base from the start row on and for no other, a line with what an account opened fresh on the start row earns on that very day: capped leverage from the returns before it, a quarter of it a fifth below the peak, times the value of the day |
| ForwardLedger.LinesStable | research/strategy_search/fwd_run.py:106-152 | every line computed from yesterday's tables is computed again, with the same value, from today's |
| ForwardLedger.Append | research/strategy_search/fwd_run.py:121-152 | a run appends exactly the lines whose series and day are not recorded, and counts exactly the recorded ones that moved by more than 1e-9 |
| ForwardLedger.LedgerIsLatest | research/strategy_search/fwd_run.py:121-152 | after any number of runs on growing tables the ledger holds one line per series and day, and they are the lines the last run computes |
| ForwardLedger.NoRevisions | research/strategy_search/fwd_run.py:145-150 | no later run ever reports a revision |
| Hourly.FilledInterval | research/strategy_search/bt_hourly.py:25-27 | filling makes a symbol present exactly from its first to its last bar |
| Hourly.HoldEveryMeaning | research/strategy_search/bt_hourly.py:65-70 | between rebalances every symbol keeps the weight of the last rebalance row that names it, for any interval but one hour, where nothing is filled |
| Hourly.HeldExactly | research/strategy_search/bt_hourly.py:65-70 | both engines hold the same weights through a day exactly when the row decided for it is empty only where the last weight given is zero |
| Hourly.RatesInDay | research/strategy_search/bt_hourly.py:49-54 | the hourly funding rates of a day add up to the daily rate, both with the minute's shift at midnight |
| Hourly.RateOfOne | research/strategy_search/bt_hourly.py:49-54 | a settlement counts in exactly the day, and the hour, that holds the minute before it |
| Hourly.SettlementPaid | research/strategy_search/bt_hourly.py:49-87 | one more settlement lowers the funding of that day by the weight held times its rate, in both engines, and of no other day |
| Hourly.MidnightSettlement | research/strategy_search/bt.py:46-49 | a settlement at midnight is paid by what was held through the day that ends and not through the one that starts |
| Hourly.DayEnds | research/strategy_search/bt_hourly.py:25-87 | a symbol's daily series ends on the day that holds its last hour, and before every day without a trade after which it trades again |
| Hourly.FundingExactly | research/strategy_search/bt_hourly.py:73-87 | a day's funding agrees for all settlements exactly when the row decided for it is empty only where the last weight given is zero |
| Hourly.CostsExactly | research/strategy_search/bt_hourly.py:73-87 | the turnover costs of all days agree, for any multiplier, exactly when no row drops a position by an empty cell |
| Hourly.PenaltyExactly | research/strategy_search/bt_hourly.py:73-87 | given equal weights, a day's delisting penalty agrees exactly when no held symbol trades again after a day without a trade |
| Hourly.HourlyPartsAgree | research/strategy_search/bt_hourly.py:65-87 | for any prices, settlements and cost multiplier, the hours of every day pay the daily engine's funding, costs and delisting penalty exactly when a weight cell is empty only where the last weight given is zero and no held symbol trades again after a missing day |
| Hourly.MissingDay | research/strategy_search/bt_hourly.py:25-27 | a held symbol without a trade on one of five days, where the penalties differ |
| Hourly.OmittedSymbol | research/strategy_search/bt_hourly.py:65-70 | two rows of which the second omits a held symbol, where the weights and the costs differ |
| Hourly.HourlyRefinesDaily | research/strategy_search/bt_hourly_selftest.py:60-66 | under these conditions the hourly PnL of a day is the daily one plus what the hours' moves of the held symbols exceed the day's |
| Hourly.MovesAddUp | research/strategy_search/bt_hourly_selftest.py:60-66 | so it equals the daily one where the hourly moves of every held symbol add up to the daily move |
| Bonds.SignalCausal | research/polymarket/bt_bonds.py:89-108 | prices after the entry time change no signal, and a signal enters inside the market's life |
| Bonds.SignalMeaning | research/polymarket/bt_bonds.py:89-108 | there is a signal exactly when the entry is inside the life of the market, its last price is at most two hours old and the side above one half is priced within the band; it buys that side at its price and is paid 1 exactly when that side wins, and half on a tie |
| Bonds.BothSidesCost | research/polymarket/bt_bonds.py:85-86 | a share costs its price and at most 0.0175 per unit of the multiplier, and both sides of a market together cost more than the one they pay |
| Bonds.StakeSpent | research/polymarket/bt_bonds.py:131-133 | the shares bought are worth the stake at their cost |
| Bonds.AcceptedExactly | research/polymarket/bt_bonds.py:124-133 | an entry is accepted exactly when no accepted trade of its event is open and the capital less all stakes plus the payouts so far covers one more stake |
| Bonds.MarkMeaning | research/polymarket/bt_bonds.py:143-146 | a position is marked at the last price of its side before the instant, and without one at its entry price, taken as the price of YES |
| Bonds.SignalIsMarked | research/polymarket/bt_bonds.py:95-146 | a position of a signal is always marked at a price of its market, because one not later than the entry exists |
| Bonds.MarksAddUp | research/polymarket/bt_bonds.py:143-146 | the marks of YES and NO of one market add up to one |
| Bonds.Release | research/polymarket/bt_bonds.py:124-139 | releasing closed positions leaves cash, open positions and busy events those of the accepted trades at that instant |
| Bonds.RunDay | research/polymarket/bt_bonds.py:118-148 | one day of the batched loop accepts the entries before its end as the simple fold does, and its equity is that of the fold |
| Bonds.Book | research/polymarket/bt_bonds.py:111-150 | the day-batched book accepts exactly the trades of a fold over the sorted entries, whatever the day grid and the marks, and returns the daily changes of that fold's equity |
| Bonds.CashNeverNegative | research/polymarket/bt_bonds.py:124-133 | cash is never negative |
| Bonds.OneTradePerEvent | research/polymarket/bt_bonds.py:129-131 | two accepted trades of one event never overlap |
| Bonds.Conservation | research/polymarket/bt_bonds.py:124-139 | at every instant cash plus the stakes of open positions is the capital plus realised profit |
| Bonds.ReturnsAddUp | research/polymarket/bt_bonds.py:111-150 | once everything is closed the daily returns telescope to the sum of shares x payout - stake over the capital |
| OpeningRange.TradeSession | research/orb_us_stocks/bt_orb.py:95-138 | a record exactly for the sessions whose first trigger in time is accepted, with the first exit in bar order; a filled position always exits |
| OpeningRange.TriggerMeaning | research/orb_us_stocks/bt_orb.py:97-105 | a trigger is the first bar behind the range to close above all its highs, and it ends early enough |
| OpeningRange.StopMeaning | research/orb_us_stocks/bt_orb.py:98-107 | the stop is the middle between the highest high and the lowest low of the range, down to a whole cent |
| OpeningRange.TradeMeaning | research/orb_us_stocks/bt_orb.py:106-137 | a record risks at least a two-thousandth of its entry, pays its cost on both prices, and its risk share covers a loss down to the stop from the entry and from the fill |
| OpeningRange.ExitMeaning | research/orb_us_stocks/bt_orb.py:111-131 | the target is twice the risk above the entry to the nearest cent, every bar before the exit stays strictly between stop and target, and the exit is the open beyond a level or at the end, else the stop if touched, else the target if touched, else the last close |
| OpeningRange.BelowStopOnlyByGap | research/orb_us_stocks/bt_orb.py:114-131 | a position leaves below its stop exactly when it leaves in a bar after the fill's that opens below it |
| OpeningRange.Day | research/orb_us_stocks/bt_orb.py:188-205 | the loop with its break, its pruned open positions and its running risk computes the book of the sorted signals |
| OpeningRange.OrderedMeaning | research/orb_us_stocks/bt_orb.py:182-189 | the signals of a day are those of its date, earlier triggers first and then the larger range turnover |
| OpeningRange.SharesLargest | research/orb_us_stocks/bt_orb.py:194-195 | the shares taken are the most that the loss limit, the position limit and the free cash allow |
| OpeningRange.TakenExactly | research/orb_us_stocks/bt_orb.py:189-204 | a signal is taken exactly when fewer than three were and the most affordable shares, at least one, fit the risk left |
| OpeningRange.Portfolio | research/orb_us_stocks/bt_orb.py:180-206 | every day with a signal, and no other, gets the result of its own book |
| OpeningRange.RiskBudget | research/orb_us_stocks/bt_orb.py:186-204 | a day takes at most three trades, each within the loss limit and the position limit, and together within the daily risk |
| OpeningRange.NotionalWithinCash | research/orb_us_stocks/bt_orb.py:186-204 | in every bar of a day the cash tied up in open positions is within the account's cash |
| OpeningRange.DayLossBounded | research/orb_us_stocks/bt_orb.py:95-206 | for every signal list, a day loses at most the daily risk plus trading costs when no bar after a fill opens below the stop |
| SweepLine.SweepBound | research/delist_drift/bt_delist.py:126-137 | checking a limit at the entries, in entry order, bounds what is open at every instant |
| SlotBooks.SlotBook | research/listing_pump/bt_spotlist.py:355-365 | the list of exits pruned at each entry gives the same kept trades as counting the kept trades still open |
| SlotBooks.SlotsNeverExceeded | research/launch_day/bt_launch.py:184-194 | at every instant at most the slots are held |
| SlotBooks.RefusedOnlyWhenFull | research/delist_drift/bt_delist.py:126-137 | a trade is refused exactly when all slots are held by kept trades at its entry |
| PaperBook.PaperDay | research/orb_stocks_in_play/bt_sip.py:151-168 | the day's return is the sum of weight x return over the trades taken in entry order |
| PaperBook.WantedMeaning | research/orb_stocks_in_play/bt_sip.py:157 | a weight risks one percent of the equity over the stop distance unless it is the largest allowed, four times the equity |
| PaperBook.WeightExactly | research/orb_stocks_in_play/bt_sip.py:157-164 | under a cap the next trade gets its own weight or all the room beside the weights still open, and nothing without room |
| PaperBook.CapNeverExceeded | research/orb_stocks_in_play/bt_sip.py:151-168 | at every minute the weights of the trades open then are within the cap |
| Watcher.Process.Turn | research/listing_pump/watch_upbit.py:87-128 | what one reply, refusal or exception does to what is known, the pause and the log |
| Watcher.WaitRange | research/listing_pump/watch_upbit.py:87-128 | in every run the pause is one second, 2 to 60 seconds, or the hour after a block |
| Watcher.PauseDoubles | research/listing_pump/watch_upbit.py:118-129 | after a success, n requests in a row that fail without a block make the pause 2^n seconds, at most 60, and log nothing |
| Watcher.LogReconstructs | research/listing_pump/watch_upbit.py:98-110 | after every list, for any replies, errors and restarts, replaying the log gives the market set, and a market's flags exactly unless it was added with flags that have not changed since |
| Watcher.SteadyFlags | research/listing_pump/watch_upbit.py:98-110 | replaying the log gives the flags of every market listed continuously since the last start |
| Watcher.AddedWithFlag | research/listing_pump/watch_upbit.py:104-109 | a run in which the log misses the flag of an added market |
| Watcher.LogIsHeaded | research/listing_pump/watch_upbit.py:98-110 | no line adds a market before the first baseline, which is what the readers of the log rely on |
| WatchLog.CoinMeaning | research/listing_pump/fwd_sniper.py:54-55 | the coin of a market is what follows its first dash |
| WatchLog.LinesCut | research/listing_pump/fwd_sniper.py:128-133 | cutting a log at the start of a line cuts its list of complete lines, so reading can resume there |
| WatchLog.State.ReadNew | research/listing_pump/fwd_sniper.py:123-146 | one call consumes whole lines only, each once, and stops early only behind a line that cannot be decoded |
| WatchLog.ReadsAreOnePass | research/listing_pump/fwd_sniper.py:123-146 | for any growth of the log and any interleaving of calls, the offset is on a line boundary and the state is that of one pass over the lines before it |
| WatchLog.TriggersSpaced | research/listing_pump/fwd_sniper.py:136-146 | accepted triggers of one coin are at least 72 hours apart |
| WatchLog.FirstSeen | research/listing_pump/analyze_watch.py:29-41 | the one-pass reader returns the fold over the decoded lines, and fails exactly when a line cannot be decoded |
| WatchLog.SeenMeaning | research/listing_pump/analyze_watch.py:29-41 | a market is in its result exactly when some line adds it after a baseline and no earlier baseline lists it, with the time of the first such line |
| WatchLog.TriggersAreFirstSeen | research/listing_pump/fwd_sniper.py:123-146 | every trigger is of a market the one-pass reader saw, with that reader's time |
| WatchLog.TriggeredExactly | research/listing_pump/fwd_sniper.py:136-146 | a coin market the one-pass reader saw triggers exactly when, at its first entry, no trigger of its coin accepted before that entry lies less than 72 hours back |
| WatchLog.ReadersAgree | research/listing_pump/fwd_sniper.py:123-146 | both hold for the resumable reader after any run that caught up with the log |
| SniperProtocol.Sniper.Settle | research/listing_pump/fwd_sniper.py:149-172 | due triggers move one by one from pending to the ledger and the rest stay in order; raising before the first line changes nothing, behind a line keeps it, and before a line drops the trigger at hand |
| SniperProtocol.Sniper.Turn | research/listing_pump/fwd_sniper.py:193-210 | one turn of the loop is a run of the protocol, wherever the time request, reading, settling, the report or saving raises |
| SniperProtocol.LostExactly | research/listing_pump/fwd_sniper.py:105-172 | over all runs with any crashes, restarts and failing writes, a trigger consumed up to the offset is neither in the ledger nor pending, in memory or in the state file, exactly when its line failed to be written, no crash before the next save undid that, and no other line has it |
| SniperProtocol.NoTriggerLost | research/listing_pump/fwd_sniper.py:105-172 | so no trigger is lost in any run, with any crashes, in which no ledger line failed to be written |
| SniperProtocol.NeverEarly | research/listing_pump/fwd_sniper.py:149-153 | no ledger line is written before three minutes after its trigger was seen, and every one is of a trigger of the log |
| SniperProtocol.SettledAtMost | research/listing_pump/fwd_sniper.py:105-172 | a trigger is settled at most once more often than the process crashed |
| SniperProtocol.ExactlyOnce | research/listing_pump/fwd_sniper.py:105-172 | without crashes every trigger read is settled exactly once or still pending, exactly when no ledger write failed |
| SniperProtocol.LostTrigger | research/listing_pump/fwd_sniper.py:155-171 | a run in which a failed ledger write loses a trigger |
| Hysteresis.Buffered | research/strategy_search/round7b.py:47-59 | every symbol's column of states is that of its own automaton |
| Hysteresis.ExplainedExactly | research/strategy_search/round7b.py:47-59 | the state is long exactly when some row entered and every row since held, live (short mirrored), for all ranks exactly when 1 - enter < hold <= enter and enter > 1/2 |
| Hysteresis.BufferedIsCalmer | research/strategy_search/round7b.py:47-63 | buffering adds neither total variation nor state changes to the plain quantile states, for all masked ranks exactly when no rank is in both tails |
| Hysteresis.UnmaskedCanTravelMore | research/strategy_search/round7b.py:33-34 | it can when ranks are given where a symbol is not live |
| FundingFetch.WindowComplete | research/strategy_search/fwd_update.py:108-115 | the recursion terminates and returns every event of the window once and in order exactly when no window it does not halve holds more than a page |
| FundingFetch.CrowdedMinute | research/strategy_search/fwd_update.py:108-115 | a page and one event inside a minute, where the last event is lost |
| FundingFetch.SparseFits | research/strategy_search/fwd_update.py:108-115 | that is so whenever no stretch of at most a minute holds more than a page |
| FundingFetch.UpdateFunding | research/strategy_search/fwd_update.py:118-144 | a run adds exactly the events from its start to the whole hour before now, where no minute holds more than a page, and never leaves a repeated symbol and time |
| FundingFetch.WindowsAreIn | research/strategy_search/fwd_update.py:129-133 | where no minute holds more than a page, the four-hour windows of a run fetch one stretch without a gap or an overlap |
| FundingFetch.KeepLastDistinct | research/strategy_search/fwd_update.py:133-136 | what is stored has no repeated symbol and time, and nothing that was not fetched |
| FundingFetch.KeepLastMeaning | research/strategy_search/fwd_update.py:133-136 | what stays is the last one of each symbol and time |
| FundingFetch.AnySchedule | research/strategy_search/fwd_update.py:118-144 | any schedule of resumed runs stores exactly the events up to the latest run |
| FundingFetch.StoredMeaning | research/strategy_search/fwd_update.py:118-144 | what any schedule has stored is the last of each symbol and time among the events from the hour after the archive up to the whole hour of its latest run |
| FundingFetch.SameAsOneRun | research/strategy_search/fwd_update.py:118-144 | it stores what one single run at the latest time stores |
| SmartBook.TargetBook | research/hl_smart/fwd_smart.py:231-235 | the chosen coins are the largest by score size and name among the eligible |
| SmartBook.TopUnique | research/hl_smart/fwd_smart.py:231-235 | there is only one such choice |
| SmartBook.BookMeaning | research/hl_smart/fwd_smart.py:231-235 | at most five coins with three holders, each a fifth, long exactly when its score is positive; a coin that could be held and is not finds five at least as large before it |
| SmartBook.PricedBook | research/hl_smart/fwd_smart.py:448-458 | asking for prices only when needed terminates and chooses the largest of the coins that have a bar: lazy pricing is filtering first |
| SmartBook.Step | research/hl_smart/fwd_smart.py:238-245 | the period's result is the sums of move, delisting penalty, funding and cost over the coins, in any order |
| SmartBook.OneCoin | research/hl_smart/fwd_smart.py:238-245 | a long gains what the price gains and pays a positive rate, a short the reverse; a delisting and every change of the weight cost either |
| SmartBook.Ledger.Trade | research/hl_smart/fwd_smart.py:461-499 | a repeated or older fill adds nothing, any other adds exactly one line whose period is always defined, and the ledger's invariant is kept over any sequence of calls |
| SmartBook.FillMeaning | research/hl_smart/fwd_smart.py:461-499 | a book is new exactly when half of the members were polled, else it is what was held and still has a bar, with the same weights; a held coin without a bar is marked at its last close or its last price |
| SmartBook.SoundAppend | research/hl_smart/fwd_smart.py:461-499 | fill times increase, price keys equal book keys, at most five positions of a fifth each, and equity is the product of 1 + pnl over all lines |
| SmartBook.LatestObs | research/hl_smart/fwd_smart.py:206-213 | an address is there exactly when it is asked for and was polled within the last hour, with its latest poll, the first of equally late ones |
| RateLimiter.Limiter.Reserve | research/hl_liqmap/collector.py:147-154 | a wait reserves one slot and sleeps exactly until it |
| RateLimiter.SlotsSpaced | research/hl_liqmap/collector.py:135-154 | for any interleaving of waits and penalties the slots are a base interval apart, and those under a penalty two |
| RateLimiter.Saturated | research/hl_liqmap/collector.py:147-154 | waits that pile up get exactly the full rate: their slots follow each other by one interval, two under a penalty |
| RateLimiter.WindowBound | research/hl_liqmap/collector.py:135-154 | any window of width W holds at most floor(W x base / 60) + 1 slots |
| RateLimiter.HeldOff | research/hl_liqmap/collector.py:143-145 | every slot reserved after a penalty is at least 30 seconds behind it |
| RateLimiter.PenaltyBound | research/hl_liqmap/collector.py:140-154 | for ten minutes after a penalty any window holds at most floor(W x base / 120) + 1 slots |

## Left out

- Floating-point rounding: all arithmetic is exact, so tolerances in the code (1e-9, 1e-12) appear only where they decide a branch. In `quintiles` the lower level is `1 - enter` exactly.
- NaN, infinities and pandas or NumPy internals: a missing cell is an option, comparisons with it are false, and rolling statistics are arbitrary functions of the rows up to a day.
- Files, network, clocks, HTTP retries, JSON and parquet: replies, logs, price look-ups and decoders are parameters; a decoder that raises is `None`, and a missing log file is a turn without a read.
- The report of the audit: maxima, per-position detail and the payment list are not part of the counters or the verdict. Time zones and microseconds are one integer scale.
- Trade lists of `listing_book`, the books of the day and the summaries in `fwd_run.py`: they are reported, never read back.
- `bt.run` and `bt_hourly.run` without closes: every modelled caller passes them.
- `Bonds.Book`, `SlotBooks.SlotBook`, `PaperBook.PaperDay`: only the fold of a period is modelled; grouping of the results by day and the statistics over them are not.
- `OpeningRange.Portfolio`: the universe of a day and the volume test of `signals` only choose which sessions are traded; any list of signals is allowed.
- `SlotBooks.SlotBook`: a sort that leaves ties in any order is allowed, because the library's default sort is not stable.
- `SniperProtocol.Sniper.Settle`: the paper trade of a ledger line (agg trades, prices, returns) and the round-trip list are not part of the line; a line is its trigger and the time it was settled.
- `Watcher.Process.Turn`: request statistics and the hourly heartbeat file are not modelled, nor is the parsing of a market's flags.
- `SmartBook.Ledger.Trade`: membership files, `scores`, rounding of reported scores and the loop over the two sets are parameters; each ledger is one object.
- Daily klines: their paging loop in `fetch_klines` and `update_klines` is not modelled.
- `Sleeves.SleevePnlStable`: the listing, pump, cross-sectional and carry signals are arbitrary causal functions; that the concrete indicators look only backwards is their definition.
- Signal simulators of the stocks in play (`simulate`), of delistings, launches and spot listings (`trade`, `events`, `notices`), the collector's poll schedule (`Registry`), and statistics with verdict bars (`stats`, `evaluate`, `passes`): not modelled.
- Order management, ledger and risk packages: they are empty in this snapshot. Migrations only justify uniqueness: history per exchange, symbol and time (migrations/versions/0001_phase1_market_data.py:99-101) and position ids (migrations/versions/0002_research_paper_tables.py:75).
