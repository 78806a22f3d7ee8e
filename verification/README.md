# Verified models of the trading research system

The repository runs a paper broker behind an order gate, backtests a reference strategy,
traces itself with telemetry, and carries a set of small exact kernels: indicators, content
hashing, log redaction, a migration-graph gate and a migration helper. This project models
the parts whose correctness spans several functions or a whole run, and proves what each of
them is for.

`dafny verify dfyconfig.toml` checks everything. Decimals and floats are exact rationals.

## What is modelled

- **Paper broker** (`BrokerModels`, `Broker`, `Gateway`). The deterministic gateway's orders,
  scripts, positions, cash and fills. `Broker` gives every operation as a transition that
  also says what state is left behind when the operation raises; `Gateway` is the object that
  updates its fields in place, each method proved equal to its transition. `BrokerLedger`
  proves conservation, `BrokerFills` exactly-once booking, `BrokerRefusals` what a refused
  booking costs, and `BrokerValues` what the records of an order are worth.
- **Order gate** (`Admission`, `AdmissionSafety`, `ListingEffects`, `AdmissionRuns`). The dispatcher's
  long-only check and what it guarantees over whole runs, with the exact condition under
  which the gate itself is safe.
- **Lost acknowledgements** (`AlpacaSubmission`). Lookup before submission and recovery after
  an ambiguous failure, against a broker that loses answers.
- **Accounting** (`AverageCost`, `LegacyReplay`, `AccountingAgreement`). The gateway's running
  average, the legacy engine's cost replay and the backtest's lump sum describe the same
  positions.
- **Backtest result** (`EntrySession`, `Realignment`, `ResultDocument`, `BookedAccount`,
  `SessionRuns`, `Drawdowns`). Admission of the input document, the one-shot entry, and the
  realignment of lagging samples with the broker's fill log, against an account that books
  one fill at a time.
- **Telemetry ownership** (`Telemetry`). One-shot global registration while other parties
  register at any moment.
- **Migration graph gate** (`LinearGate`), **indicators** (`Indicators`), **content hashing**
  (`DecimalNotation`, `Canonical`), **log redaction** (`TextOrder`, `Redaction`), **migration helper**
  (`BranchNames`, `Checks`, `Phases`).

## Where the code and its documentation part

The model follows the code. For each of these the condition under which the code does meet
the expectation is proved, as an equivalence unless said otherwise:

- Conservation of cash and shares fails for a side spelled other than `SELL` (`sell` is
  applied as a purchase and recorded as a sale) and for a purchase without a symbol (cash is
  spent, then the position is refused). `BrokerLedger.RecordableIsExact` says that no other
  submission breaks it. The dispatcher's `submit_order` refuses the first kind and admits the
  second (`AdmissionRuns.SubmitOrderAdmitsUnrecordable`); its broker-neutral operation
  refuses both.
- A lookup stores the snapshot before it books the fill, so shares whose booking is refused
  count as filled and are never recorded: the records fall short by exactly the refused
  shares (`BrokerRefusals.RefusedSharesAreLost`).
- Each new block of an order's shares is booked at the cumulative average price, so 5 at 10
  followed by an average of 11 for 10 records 105 where the snapshot shows 110. A lookup keeps
  the two equal if and only if nothing was filled before or the average stays
  (`BrokerValues.LookupKeepsValueExactly`).
- The gate reads the position before listing the open orders, and listing applies pending
  fills. Admission keeps every sale covered if and only if the scripts waiting before the
  call fail the listing, take no shares of the symbol away on balance, or leave no allowance.
  Listing the open orders first is the caller's remedy (`AdmissionRuns.ListingFirstPermitsSale`).
- At most one broker order per client order id needs lookups that never deny an existing
  order; `AlpacaSubmission.AttemptKeepsUnique` is an equivalence.
- The Alpaca gateway posts a sale for every side but `BUY` exactly, so `buy` would sell
  (`AlpacaSubmission.AttemptBooksTheIntent`); the dispatcher admits neither spelling.
- An accepted input document without a delay may hold a single bar, and then no order is
  submitted (`EntrySession.AcceptedDocumentEntersOnce`).
- Decimals keep their value in the canonical text exactly when no digit stands beyond the
  28th significant one; a negative zero prints apart from zero; and a decimal hashes like the
  string of its text.
- A list or tuple subclass is documented to be redacted to a tuple. The code sorts it into a
  list whenever its redacted members can be ordered: texts always can, and their order then
  survives exactly when they stood in order already (`Redaction.TextsAreReordered`).
- A phase documented with a superfluous leading zero (`07`) is never matched by any branch,
  so it is always offered to be started; a branch reads back as its phase exactly when the
  phase has none (`BranchNames.PrefixReadsBack`, `Phases.PaddedPhaseIsNeverSeen`).
- Looking up the reported pull request may take the active phase back, when its number is
  also that of every merged pull request listed for the current phase
  (`Phases.DiscoveryKeepsActiveExactly`); and it loses the reported pull request exactly when
  its number is listed more than once (`Phases.DiscoveryKeepsPhase`).

## Model

| member | source | states |
|---|---|---|
| BrokerModels.FillIdTextIsInjective | paper_runtime/src/trading_paper_runtime/deterministic_gateway.py:119-127 | The text of a fill identifier determines both the client order id and the filled quantity, although ids may themselves contain dashes and digits. |
| BrokerModels.ReportedExactly | paper_runtime/src/trading_paper_runtime/models.py:159-200 | A scripted outcome becomes a snapshot exactly when its status is one a broker reports, its price parses, and the filled shares lie within the order and are priced; identity, symbol, side and size never change. |
| BrokerModels.AcknowledgedExactly | paper_runtime/src/trading_paper_runtime/deterministic_gateway.py:81-94 | A submission is acknowledged exactly when its ids are given, its quantity is positive, its side is readable and its limit price, if any, parses; the order is then accepted, unfilled and has the fields asked for. |
| BrokerModels.ParseExactIntExactly | paper_runtime/src/trading_paper_runtime/models.py:55-67 | A broker number is read as a share count exactly when it is whole, and as itself. |
| Broker.ApplyPosition | paper_runtime/src/trading_paper_runtime/deterministic_gateway.py:130-163 | Positions stay strictly positive through every application, including those that raise, and only cash and positions move. |
| Broker.Booking | paper_runtime/src/trading_paper_runtime/deterministic_gateway.py:112-128 | Whatever a lookup books or refuses, positions stay positive and the starting cash stays. |
| Broker.PollIsIdempotent | paper_runtime/src/trading_paper_runtime/deterministic_gateway.py:96-128 | A further lookup under an unchanged script changes nothing at all, also after a lookup that raised. |
| Broker.ResubmissionReturnsTheOrder | paper_runtime/src/trading_paper_runtime/deterministic_gateway.py:69-94 | A key names one order: submitting under it again returns that order exactly when symbol, side, quantity, order type and limit price are the same and conflicts otherwise; either way only the call is noted. |
| Broker.FirstSubmission | paper_runtime/src/trading_paper_runtime/deterministic_gateway.py:69-94 | A first submission adds the acknowledged order last or nothing, notes the call, and leaves every other order, script and amount alone. |
| Broker.CancelledStaysCancelled | paper_runtime/src/trading_paper_runtime/deterministic_gateway.py:191-209 | A cancellation of any order not filled, cancelled, rejected or in error succeeds, drops its script, books nothing, and later lookups and cancellations leave it so. |
| Broker.FinishedOrdersStay | paper_runtime/src/trading_paper_runtime/deterministic_gateway.py:191-209 | Cancelling an order that is filled, cancelled, rejected or in error returns it and changes nothing; an unknown one raises. |
| Broker.LookupAnswers | paper_runtime/src/trading_paper_runtime/deterministic_gateway.py:96-128 | A lookup answers nothing for an unknown order, the stored order without a script, the error of an invalid script, and else stores and returns the reported snapshot; no other order changes. |
| BrokerLedger.SaleMoves | paper_runtime/src/trading_paper_runtime/deterministic_gateway.py:130-148 | A covered sale raises cash by its value, lowers the one position by its shares and removes it at zero. |
| BrokerLedger.PurchaseMoves | paper_runtime/src/trading_paper_runtime/deterministic_gateway.py:149-163 | A purchase of a named symbol never raises, lowers cash by its value and moves the one position to the weighted average. |
| BrokerLedger.BookKeepsLedger | paper_runtime/src/trading_paper_runtime/deterministic_gateway.py:112-163 | Booking raises exactly when the position does not cover the sale, and then changes no amount; otherwise exactly one fill is recorded, for the trade that was due. |
| BrokerLedger.BookedExactly | paper_runtime/src/trading_paper_runtime/deterministic_gateway.py:112-163 | Booking is refused exactly when more is sold than held, and then moves nothing; otherwise it adds one record with the order's own id, book, symbol and side, the shares booked and their price. |
| BrokerLedger.LookupBooksDifference | paper_runtime/src/trading_paper_runtime/deterministic_gateway.py:113-128 | A lookup books exactly the shares reported beyond those filled so far, at the reported price, as one fill of that order; it books nothing when no more is reported. |
| BrokerLedger.RefusedPurchaseSpendsCash | paper_runtime/src/trading_paper_runtime/deterministic_gateway.py:149-155 | Opening a position without a price or a symbol is refused, told apart by the error, after its cash is spent. |
| BrokerLedger.ListedFillsAreRecorded | paper_runtime/src/trading_paper_runtime/deterministic_gateway.py:168-170 | A listing of fills looks the order up first and gives every recorded fill of it, as often as recorded, and no other. |
| BrokerLedger.ScriptIsReportedNext | paper_runtime/src/trading_paper_runtime/deterministic_gateway.py:57-112 | Scripting changes nothing but the script, and the outcome scripted last is what the next lookup reports. |
| BrokerLedger.StepKeepsLedger | paper_runtime/src/trading_paper_runtime/deterministic_gateway.py:57-209 | Every operation (script, lookup, listings, cancel, and submissions that are recordable) keeps cash, positions and per-order fills equal to what the recorded fills account for. |
| BrokerLedger.LedgerIsExactInEveryRun | paper_runtime/src/trading_paper_runtime/deterministic_gateway.py:57-209 | In every state of every interleaving whose submissions are recordable, past lookups that raised: cash is starting cash less purchases plus sales, each position is bought less sold, present exactly when positive, with the average of the cost replay. |
| BrokerLedger.UnrecordableBreaksLedger | paper_runtime/src/trading_paper_runtime/deterministic_gateway.py:130-163 | Filling an order with a respelled sale side, or a purchase without a symbol, breaks conservation in every state. |
| BrokerLedger.RecordableIsExact | paper_runtime/src/trading_paper_runtime/deterministic_gateway.py:69-163 | An acknowledged new order keeps the account exact under every scripted outcome if and only if its side and symbol are of the recordable kind. |
| BrokerFills.StepKeepsCount | paper_runtime/src/trading_paper_runtime/deterministic_gateway.py:57-209 | Under monotone scripts and lookups that meet no refusal, every operation keeps recorded shares equal to filled quantities and fills numbered by them. |
| BrokerFills.NumberedFillsAreDistinct | paper_runtime/src/trading_paper_runtime/deterministic_gateway.py:119-127 | Two different records never carry the same identifier text, within an order or across orders. |
| BrokerFills.FillsAreBookedExactlyOnce | paper_runtime/src/trading_paper_runtime/deterministic_gateway.py:96-128 | Over every orderly run each order's fills sum to its filled quantity, never above the ordered one, unknown orders have none, and all identifiers are pairwise distinct. |
| BrokerRefusals.RefusedSharesAreLost | paper_runtime/src/trading_paper_runtime/deterministic_gateway.py:113-128 | Over every run with monotone scripts, refusals included, recorded and refused shares of an order make up its filled quantity, within the ordered one; they agree exactly when nothing of it was refused. |
| BrokerRefusals.RefusalsAddUp | paper_runtime/src/trading_paper_runtime/deterministic_gateway.py:113-128 | What a run refuses is never taken back by continuing it. |
| BrokerRefusals.OrderlyRunExactly | paper_runtime/src/trading_paper_runtime/deterministic_gateway.py:96-128 | A run is orderly exactly when its scripts are monotone and nothing in it is refused. |
| BrokerRefusals.IdentifiersAreAlwaysDistinct | paper_runtime/src/trading_paper_runtime/deterministic_gateway.py:119-127 | Fill identifiers are pairwise distinct over every run with monotone scripts, refusals included. |
| BrokerValues.LookupKeepsValueExactly | paper_runtime/src/trading_paper_runtime/deterministic_gateway.py:113-127 | A lookup that is not refused keeps an order's records worth filled quantity times average if and only if nothing was filled before or the average stays. |
| BrokerValues.ShownValueIsRecordedPlusDrift | paper_runtime/src/trading_paper_runtime/deterministic_gateway.py:113-127 | Over every run with monotone scripts, filled quantity times average is the recorded value plus the drift of the lookups: shares held before at each change of the average, and all of a refused block. |
| BrokerValues.WorthIsProduct | paper_runtime/src/trading_paper_runtime/deterministic_gateway.py:135 | Shares valued one by one at a price are worth quantity times price. |
| Gateway.DeterministicBrokerGateway.constructor | paper_runtime/src/trading_paper_runtime/deterministic_gateway.py:36-50 | A new gateway holds the starting cash and nothing else. |
| Gateway.DeterministicBrokerGateway.ScriptFill | paper_runtime/src/trading_paper_runtime/deterministic_gateway.py:57-67 | Scripting an outcome performs the specified transition. |
| Gateway.DeterministicBrokerGateway.SubmitOrder | paper_runtime/src/trading_paper_runtime/deterministic_gateway.py:69-94 | State and outcome are those of the specified submission: replay, conflict, refusal or a new order. |
| Gateway.DeterministicBrokerGateway.GetOrder | paper_runtime/src/trading_paper_runtime/deterministic_gateway.py:96-128 | State and outcome are those of the specified lookup, which stores the snapshot before a booking that may raise. |
| Gateway.DeterministicBrokerGateway.ApplyPosition | paper_runtime/src/trading_paper_runtime/deterministic_gateway.py:130-163 | Cash and positions, and the error if any, are those of the specified application, partial effects included. |
| Gateway.DeterministicBrokerGateway.ListOrderFills | paper_runtime/src/trading_paper_runtime/deterministic_gateway.py:168-170 | Looks the order up first; its fills are the recorded ones afterwards. |
| Gateway.DeterministicBrokerGateway.ListOpenOrders | paper_runtime/src/trading_paper_runtime/deterministic_gateway.py:172-176 | Looks every unclosed order up in insertion order and stops at the first lookup that raises, keeping what was done. |
| Gateway.DeterministicBrokerGateway.GetOrders | paper_runtime/src/trading_paper_runtime/deterministic_gateway.py:172-180 | A listing of any orders is the specified sequence of lookups. |
| Gateway.DeterministicBrokerGateway.CancelOrder | paper_runtime/src/trading_paper_runtime/deterministic_gateway.py:191-209 | State and outcome are those of the specified cancellation. |
| Gateway.Dispatcher.ValidateConfirmedLong | paper_runtime/src/trading_paper_runtime/dispatcher.py:231-257 | The loop over listed orders decides as the specified gate, which reads the position first, lists afterwards, and whose verdict is the subject of `GateAdmitsExactly`. |
| Admission.ActiveExactly | paper_runtime/src/trading_paper_runtime/dispatcher.py:223-229 | An order commits its unfilled shares in exactly the six statuses pending, unknown, submitted, accepted, partially filled and cancel requested, and in none of the five terminal ones. |
| Admission.ValidateExactly | paper_runtime/src/trading_paper_runtime/models.py:119-137 | An intent is valid exactly when its ids are given, it is a limit order for equity with a side spelled exactly, a positive quantity and positive prices, and it has not expired. |
| Gateway.Dispatcher.SubmitOrder | paper_runtime/src/trading_paper_runtime/dispatcher.py:75-82 | Validation, gate and submission leave the specified state and outcome. |
| Gateway.Dispatcher.SubmitLimitOrder | paper_runtime/src/trading_paper_runtime/dispatcher.py:145-154 | The broker-neutral submission leaves the specified state and outcome. |
| Gateway.Dispatcher.Preview | paper_runtime/src/trading_paper_runtime/dispatcher.py:129-143 | The field checks, validation, account check and gate of a preview leave the specified state and verdict; nothing is submitted. |
| Gateway.DeterministicBrokerGateway.BookFill | paper_runtime/src/trading_paper_runtime/deterministic_gateway.py:116-127 | Moving the position and recording the fill perform the specified booking, either refusal included. |
| AdmissionRuns.PreviewForetellsSubmission | paper_runtime/src/trading_paper_runtime/dispatcher.py:129-154 | For a fresh key a preview approves exactly what the submission would acknowledge, and otherwise refuses with the same error and state. |
| AdmissionSafety.LookupIsCovered | paper_runtime/src/trading_paper_runtime/deterministic_gateway.py:96-163 | While open sells are covered, no lookup meets a refusal, and holdings move by exactly the shares reported. |
| AdmissionSafety.PollKeepsGuarded | paper_runtime/src/trading_paper_runtime/deterministic_gateway.py:96-163 | A lookup keeps conservation, exactly-once booking and the coverage of every open sell. |
| AdmissionSafety.ScriptKeepsGuarded | paper_runtime/src/trading_paper_runtime/deterministic_gateway.py:57-67 | So does scripting a monotone outcome for an order that is still active. |
| AdmissionSafety.CancelKeepsGuarded | paper_runtime/src/trading_paper_runtime/deterministic_gateway.py:191-209 | So does cancelling any order. |
| AdmissionSafety.GateCountsExposure | paper_runtime/src/trading_paper_runtime/dispatcher.py:236-250 | What the gate sums over the listed orders is the exposure of the whole book that the listing leaves behind. |
| AdmissionSafety.ListingTakesNothing | paper_runtime/src/trading_paper_runtime/dispatcher.py:231-257 | While sales of a symbol are settled, listing open orders takes none of its shares away. |
| AdmissionSafety.AdmittedSaleIsCovered | paper_runtime/src/trading_paper_runtime/dispatcher.py:231-257 | A new sell that passes the gate fits into held shares that no open sell claims. |
| AdmissionSafety.GatedSubmitKeepsGuarded | paper_runtime/src/trading_paper_runtime/dispatcher.py:75-82 | Submitting what the gate admitted, new or repeated, keeps every open sell covered. |
| AdmissionRuns.DispatcherRunsAreSafe | paper_runtime/src/trading_paper_runtime/dispatcher.py:75-257 | Over every permitted run through the dispatcher, quantity less filled summed over the sales not filled, cancelled, expired, rejected or in error never exceeds what is held, no later lookup is refused, each order's fills are recorded exactly once and the account is exact. |
| AdmissionRuns.AdmittedOrderIsAsAsked | paper_runtime/src/trading_paper_runtime/models.py:119-137 | A fresh admitted order is just the one asked for: same ids, symbol, side, book and limit price, a positive quantity and prices, unexpired, unfilled and active, and it is stored. |
| AdmissionRuns.ValidPurchaseIsAdmitted | paper_runtime/src/trading_paper_runtime/dispatcher.py:75-82 | A valid purchase under a fresh key is always acknowledged, adds exactly its own order and moves no money, share or script. |
| AdmissionRuns.GateAdmitsExactly | paper_runtime/src/trading_paper_runtime/dispatcher.py:231-257 | For every key the gate refuses a symbol not held, fails when a waiting script of an open order is invalid, and else admits exactly the quantities up to the shares held less quantity less filled of the other open sales, as the waiting scripts will leave them. |
| AdmissionRuns.OpenSaleIsReserved | paper_runtime/src/trading_paper_runtime/dispatcher.py:231-257 | With no scripts waiting, one sale of the symbol in any of the six active statuses makes the gate refuse, under a fresh key, every quantity above the shares held less that order's quantity less filled. |
| AdmissionRuns.FinishedSalesReserveNothing | paper_runtime/src/trading_paper_runtime/dispatcher.py:223-251 | When every sale of the symbol is filled, cancelled, expired, rejected or in error, the gate admits exactly the quantities up to the shares held. |
| AdmissionRuns.LimitOrderExactly | paper_runtime/src/trading_paper_runtime/dispatcher.py:145-154 | The broker-neutral submission under a fresh key succeeds exactly when every field is given and valid, the account is the right one and, for a sale, the gate admits it. |
| AdmissionRuns.GateIsSafeExactlyWhenListingTakesNothing | paper_runtime/src/trading_paper_runtime/dispatcher.py:231-257 | Admission keeps sells covered for every quantity if and only if, before the call, some waiting script would fail the listing, or the waiting scripts take no shares away on balance, or no allowance is left. |
| AdmissionRuns.ListingFirstPermitsSale | paper_runtime/src/trading_paper_runtime/dispatcher.py:92-94 | After a successful listing of the open orders any sell may be submitted, and every open sell stays covered. |
| ListingEffects.ListOpenEffect | paper_runtime/src/trading_paper_runtime/deterministic_gateway.py:172-176 | Listing succeeds exactly when every waiting script of an open order is valid; it then moves a position by exactly what those scripts report beyond the shares filled so far, and leaves of the sales what they report as still unfilled. |
| ListingEffects.ListingSettles | paper_runtime/src/trading_paper_runtime/deterministic_gateway.py:172-176 | A successful listing leaves the sales of every symbol settled. |
| AdmissionRuns.UnappliedSaleMisleadsGate | paper_runtime/src/trading_paper_runtime/dispatcher.py:231-257 | With one pending sale of r shares the gate admits a sell exceeding what is then free by exactly r. |
| AdmissionRuns.SubmitOrderAdmitsUnrecordable | paper_runtime/src/trading_paper_runtime/dispatcher.py:75-82 | A purchase without a symbol is admitted by `submit_order`, and filling it breaks the account. |
| AdmissionRuns.HeldIsWhole | paper_runtime/src/trading_paper_runtime/models.py:55-67 | Confirmed positions are always whole share counts, so the exact-integer parse in the gate never rejects them. |
| AlpacaSubmission.LumiBotAlpacaPaperGateway.SubmitOrder | paper_runtime/src/trading_paper_runtime/lumibot_gateway.py:178-214 | Given what the broker and the network do, the book and the answer are those of the specified attempt. |
| AlpacaSubmission.AttemptBooksTheIntent | paper_runtime/src/trading_paper_runtime/lumibot_gateway.py:178-200 | An attempt appends one order with the intent's id, symbol, side, quantity and limit price exactly when the asset is accepted, no order is found, the price is a number and the call is acknowledged or lost after taking effect; otherwise it leaves the book alone. |
| AlpacaSubmission.AttemptAnswers | paper_runtime/src/trading_paper_runtime/lumibot_gateway.py:178-214 | An acknowledged attempt returns the order it posted, if readable; a lookup that fails is a broker error, an asset or price that cannot be used an internal one. |
| AlpacaSubmission.LostOrderIsRecovered | paper_runtime/src/trading_paper_runtime/lumibot_gateway.py:198-214 | When the acknowledgement is lost after the order took effect, the second lookup returns that very order, if readable. |
| AlpacaSubmission.AttemptKeepsUnique | paper_runtime/src/trading_paper_runtime/lumibot_gateway.py:178-224 | An attempt duplicates an order exactly when a lookup denied the existing one and the submission then took effect. |
| AlpacaSubmission.AtMostOneOrderPerId | paper_runtime/src/trading_paper_runtime/lumibot_gateway.py:178-224 | Over any series of attempts with lost acknowledgements and truthful or failing lookups, and any broker updates between, each client order id has at most one order. |
| AlpacaSubmission.OrdersPersist | paper_runtime/src/trading_paper_runtime/lumibot_gateway.py:178-214 | No attempt or broker update makes an existing order disappear. |
| AlpacaSubmission.AnswersAreTrue | paper_runtime/src/trading_paper_runtime/lumibot_gateway.py:198-214 | When no lookup denies an existing order, a returned order is one the broker holds under that id, and SUBMISSION_UNKNOWN is raised exactly when none exists, both lookups answered and the submission was lost without effect. |
| AlpacaSubmission.ReplayReturnsTheOrder | paper_runtime/src/trading_paper_runtime/lumibot_gateway.py:185-189 | After any such series, the first attempt whose lookup answers for an existing order returns that very order, if readable, and submits nothing. |
| AverageCost.ReplayRefinesAverage | docs/library-migration/pr7/run_legacy_engine.py:158-182 | On every stream that never oversells, the cost accumulator and the running average describe the same shares and cost. |
| AverageCost.TradeMeans | paper_runtime/src/trading_paper_runtime/deterministic_gateway.py:130-163 | A purchase adds its shares and its price to what the position cost; a sale leaves the average, closes the position when nothing remains, and is refused exactly when more is sold than held; cash moves by quantity times price. |
| AverageCost.SellKeepsAverage | paper_runtime/src/trading_paper_runtime/deterministic_gateway.py:136-148 | A sale leaves the average price of what remains unchanged. |
| AverageCost.AverageBetweenOpeningPrices | paper_runtime/src/trading_paper_runtime/deterministic_gateway.py:149-163 | The average lies between the least and greatest purchase price since the position opened. |
| AverageCost.CashPlusBasisIsStartPlusGains | paper_runtime/src/trading_paper_runtime/deterministic_gateway.py:130-163 | Cash plus the total cost basis equals starting cash plus realised gains, over all symbols. |
| AverageCost.HoldingIsNetShares | paper_runtime/src/trading_paper_runtime/deterministic_gateway.py:130-163 | A position is the shares bought less the shares sold, and absent exactly at zero. |
| LegacyReplay.SortedIsOrderedPermutation | docs/library-migration/pr7/run_legacy_engine.py:158-166 | The replay goes by ascending sequence number, none counting as zero, and loses no fill. |
| LegacyReplay.SortIsStable | docs/library-migration/pr7/run_legacy_engine.py:158-166 | Fills with one sequence number, or none, keep their given order. |
| LegacyReplay.ReplayRows | docs/library-migration/pr7/run_legacy_engine.py:162-173 | The loop keeps, for every symbol, the quantity and cost that the replay specifies. |
| LegacyReplay.TradeEntersRow | docs/library-migration/pr7/run_legacy_engine.py:162-173 | A purchase adds shares and cost; a sale removes shares and keeps the average cost while shares are held, and the cost itself otherwise. |
| LegacyReplay.DeriveEndPositions | docs/library-migration/pr7/run_legacy_engine.py:158-182 | Exactly the symbols whose replayed quantity is positive are reported, with cost over quantity as average. |
| LegacyReplay.ReplayedPositionIsGatewayPosition | docs/library-migration/pr7/run_legacy_engine.py:158-182 | On streams that never oversell the replayed positions are the gateway's positions. |
| AccountingAgreement.EndPositionIsGatewayPosition | backtest_runtime/src/backtest_runtime/strategy.py:325-398 | For any log of purchases the backtest's summed cost basis ends in the position the gateway's running average would hold. |
| EntrySession.DelayIsAcceptedExactlyWhenFeasible | backtest_runtime/src/backtest_runtime/contract.py:235-269 | On ordered bars a delay is accepted if and only if there are two bars and the last is after it. |
| EntrySession.BarsAreAcceptedExactly | backtest_runtime/src/backtest_runtime/contract.py:231-269 | Bars and delay are accepted if and only if there are bars, all valid and strictly increasing in date over every pair, and the delay if any is feasible. |
| EntrySession.DocumentIsAcceptedExactly | backtest_runtime/src/backtest_runtime/contract.py:198-269 | Given fields of the right types, a document is accepted, unchanged, if and only if schema version and strategy id are the expected ones, the symbol is not blank, quantity and budget are positive, and bars and delay are acceptable. |
| EntrySession.ReferenceStrategy.OnTradingIteration | backtest_runtime/src/backtest_runtime/strategy.py:193-231 | An iteration submits only if nothing was submitted, the delay has passed and a non-zero price is quoted. |
| EntrySession.ReferenceStrategy.Run | backtest_runtime/src/backtest_runtime/strategy.py:193-231 | Over all iterations the strategy submits on the first eligible one and never again. |
| EntrySession.EntriesAreFirstEligible | backtest_runtime/src/backtest_runtime/strategy.py:193-231 | The only order is the one of the first session that allows it. |
| EntrySession.AcceptedDocumentEntersOnce | backtest_runtime/src/backtest_runtime/contract.py:223-269 | Every accepted document with a price each session yields exactly one order, on the first session after the delay, unless it has a single bar and no delay. |
| Realignment.AuthoritativeFillEvents | backtest_runtime/src/backtest_runtime/strategy.py:113-161 | The loop with its per-order counters gives the specified fill events or the error. |
| Realignment.EventsAreFillRows | backtest_runtime/src/backtest_runtime/strategy.py:113-161 | The events are the fill rows of the log in order, field by field, each numbered one more than the earlier fill rows of its order. |
| Realignment.EventsNeedTimes | backtest_runtime/src/backtest_runtime/strategy.py:141-147 | A log is refused exactly when one of its fill rows has no time. |
| Realignment.FillNumbersAreDistinct | backtest_runtime/src/backtest_runtime/strategy.py:113-161 | No two fills share both order and number. |
| ResultDocument.NormalizeResult | backtest_runtime/src/backtest_runtime/strategy.py:278-398 | Accepts exactly the buy-only logs without stray fills whose samples agree, tells the three refusals apart, and gives the reconstructed day of every session with the final figures. |
| ResultDocument.WalkSessions | backtest_runtime/src/backtest_runtime/strategy.py:325-368 | The loop over sessions completes exactly when every sample agrees, and then holds the reconstructed balances, days, drawdown and the fills still pending. |
| ResultDocument.StraysAreThoseLeft | backtest_runtime/src/backtest_runtime/strategy.py:325-368 | Popping each session's group leaves nothing over exactly when every fill falls on an observed session. |
| BookedAccount.AcceptedExactly | backtest_runtime/src/backtest_runtime/strategy.py:270-368 | A result is accepted exactly when every fill is a purchase of an observed session and each sample shows, within a millionth, the cash and shares of the account after the sessions before, and an equity valued at its own mark. |
| BookedAccount.DayIsAccount | backtest_runtime/src/backtest_runtime/strategy.py:333-360 | Each reported day has the cash, equity and unrealised gain of an account that paid price and fees of every fill up to that session. |
| BookedAccount.DocumentEndsInAccount | backtest_runtime/src/backtest_runtime/strategy.py:370-398 | Final cash and position are those of the account after all fills, and final equity that of the last day, or the budget without one. |
| BookedAccount.EquityLessUnrealized | backtest_runtime/src/backtest_runtime/strategy.py:336-359 | In every session equity less unrealised gains is the budget less the sum of the fees of the fills booked so far. |
| SessionRuns.ReconstructionIsBroker | backtest_runtime/src/backtest_runtime/strategy.py:278-368 | Before every session the reconstruction equals the balances of a broker that books each fill of the earlier sessions on its own. |
| SessionRuns.RunIsAcceptedExactlyWhenMarksAgree | backtest_runtime/src/backtest_runtime/strategy.py:29-34 | A run of the documented loop is accepted exactly when each session was valued, within tolerance, at the quoted price; lagging cash and shares never reject it. |
| SessionRuns.QuotedRunIsAccepted | backtest_runtime/src/backtest_runtime/strategy.py:29-34 | A run is accepted when, whenever shares are held, the price quoted is the one the account is valued at. |
| SessionRuns.ReportedDayIsBrokerDay | backtest_runtime/src/backtest_runtime/strategy.py:278-368 | Each reported day is that broker's state at the end of the session, although sampled before its fills. |
| SessionRuns.DocumentEndsWithBroker | backtest_runtime/src/backtest_runtime/strategy.py:370-398 | The document ends with that broker's cash and position, and with the equity of the last session. |
| Drawdowns.LastDrawdownIsWorstChange | backtest_runtime/src/backtest_runtime/strategy.py:342-348 | For positive equities each daily drawdown lies in (-1, 0] and is the worst change from any earlier session. |
| Drawdowns.DrawdownIsFromGreatest | backtest_runtime/src/backtest_runtime/strategy.py:341-346 | For equities of any sign each drawdown is the fall from the greatest equity so far, and zero while none was positive. |
| Drawdowns.ReportedDrawdownIsWorstChange | backtest_runtime/src/backtest_runtime/strategy.py:340-358 | Every reported day shows its session's equity and that worst change as its drawdown. |
| Drawdowns.MaxDrawdownIsPairwiseMinimum | backtest_runtime/src/backtest_runtime/strategy.py:342-348 | The running-peak maximum drawdown is the minimum of E_j/E_i - 1 over all pairs i <= j. |
| Telemetry.Module.UsesAdoptedProviders | src/trading_research/observability.py:420-429 | True exactly when configured with some global that is not owned. |
| Telemetry.Module.ExternalGlobals | src/trading_research/observability.py:147-171 | A global already registered is reported external exactly when the registry can tell, and none is that is not registered. |
| Telemetry.Module.BuildProviders | src/trading_research/observability.py:364-375 | Both providers are built before either is registered, and a failed construction disposes of what was built. |
| Telemetry.Module.RegisterTracer | src/trading_research/observability.py:226-253 | The provider ends up owned and live, or shut down and disowned, whatever other parties register meanwhile. |
| Telemetry.Module.RegisterMeter | src/trading_research/observability.py:256-271 | Likewise for the meter provider. |
| Telemetry.Module.AcquireGlobals | src/trading_research/observability.py:335-403 | A construction error is reported exactly when a construction failed; otherwise adopting always succeeds, and not adopting succeeds exactly when neither global is external in the end. A global found external at first fails the call before anything is built. |
| Telemetry.Module.ConfigureTelemetry | src/trading_research/observability.py:321-406 | Told exactly: already configured, after a shutdown, a failed construction, or external providers; in every other case both globals are provided and the module is configured. What is registered or owned stays. |
| Telemetry.Module.ShutdownTelemetry | src/trading_research/observability.py:459-478 | Shuts down exactly the owned providers and forgets them; only that closes the module for good. |
| Telemetry.Module.AnyHistory | src/trading_research/observability.py:321-478 | Over every list of calls, with other parties acting in between, the invariant holds and a shutdown of an owned provider makes every later configuration fail. |
| LinearGate.LinearOnlyGate | docs/library-migration/pr13/scratch_alembic_linearity.py:212-253 | The loops report the head count, merges and dependency edges in walk order, and the branches; nothing is reported exactly for a clean graph. |
| LinearGate.ViolationsAreExact | docs/library-migration/pr13/scratch_alembic_linearity.py:212-253 | Reported is exactly what is the case: the number of revisions none follows when it is not one, each merge, each dependency edge of a revision that is no merge, and each predecessor with the number of its single followers when that is above one. |
| LinearGate.ScanFollowsWalk | docs/library-migration/pr13/scratch_alembic_linearity.py:212-253 | Merges and dependency edges are reported revision by revision in walk order. |
| LinearGate.GateAcceptsExactlyChains | docs/library-migration/pr13/scratch_alembic_linearity.py:212-253 | An acyclic graph whose parents exist passes if and only if its revisions form one chain with a unique root and head and no dependency edges. |
| Indicators.Macd | scripts/indicators.py:176-210 | The bar-by-bar loops compute the specified line, signal and histogram, and reject invalid periods. |
| Indicators.Trix | scripts/indicators.py:213-244 | The stripped, re-aligned loops compute the specified line and signal, and reject invalid periods. |
| Indicators.AverageIsExponential | scripts/indicators.py:133-148 | The average starts as the mean of the first period values, and then weighs a new value twice against period - 1 times the average before. |
| Indicators.MacdIs | scripts/indicators.py:176-210 | The line is the fast average less the slow one, the signal the average of the line's own values, the histogram the line less the signal. |
| Indicators.TrixIs | scripts/indicators.py:213-244 | The line is the percent change of the threefold average, none from zero, and the signal the average of those changes. |
| Indicators.StripOfPadded | scripts/indicators.py:147-148 | Stripping a series drops exactly its warm-up. |
| Indicators.MacdNeverLooksAhead | scripts/indicators.py:176-210 | On any longer series every value stays; line, signal and histogram first appear at bars slow-1, slow+signal-2 and slow+signal-2. |
| Indicators.TrixNeverLooksAhead | scripts/indicators.py:213-244 | Likewise, with line and signal first at bars 3(period-1)+1 and 3(period-1)+signal. |
| Indicators.TrixStandsAtItsLastBar | scripts/indicators.py:213-244 | Each value stands at the last bar it used: the change of the triple average that this bar brings. |
| DecimalNotation.PrintReadsBack | src/trading_research/hashing.py:40-46 | The canonical text is plain fixed-point, keeps the sign and reads back as the same number exactly when no digit stands beyond the 28th significant one. |
| DecimalNotation.PrintAlike | src/trading_research/hashing.py:40-46 | Two decimals share a text exactly when they are equal after rounding and of one sign. |
| DecimalNotation.PrintIdentifies | src/trading_research/hashing.py:40-46 | Within the precision, two decimals share a text exactly when numerically equal, zeros of opposite sign excepted. |
| DecimalNotation.LongDecimalsCollide | src/trading_research/hashing.py:40-46 | Beyond the precision distinct decimals share a text: every 29-digit multiple of ten and its four successors. |
| DecimalNotation.LongDecimalsAreRounded | src/trading_research/hashing.py:40-46 | Of a number of more than 28 digits the text shows a nearest one that keeps 28 of them, the even one of two. |
| DecimalNotation.RoundingIsNearest | src/trading_research/hashing.py:46 | Rounding goes to a nearest multiple, and to the even one of two. |
| DecimalNotation.StrippingKeepsMagnitude | src/trading_research/hashing.py:46 | Dropping trailing zeros keeps the value and ends without any. |
| DecimalNotation.StrippedIsUnique | src/trading_research/hashing.py:46 | Equal values have one form without trailing zeros. |
| Canonical.CanonicalizeIsIdempotent | src/trading_research/hashing.py:29-61 | Canonicalising a canonical copy changes nothing. |
| Canonical.RaisesExactlyOnUnhashable | src/trading_research/hashing.py:36-61 | A configuration is refused exactly when a non-finite number, an unlisted type or a mapping with a non-string key stands somewhere in it. |
| Canonical.SameDocumentExactlyOnSameContent | src/trading_research/hashing.py:29-70 | Two accepted configurations give the same sorted-key document exactly when their content agrees, key order, list or tuple and decimal spelling aside; a decimal and the string of its text also agree. |
| Canonical.SameObject | src/trading_research/hashing.py:49-55 | Two mappings give the same JSON object exactly when they have the same keys and, key by key, the same value. |
| Redaction.RedactValue | src/trading_research/logging_config.py:108-216 | The walk ends on every object graph, cyclic or unbounded, at a call depth of at most one plus the nesting and hook depth left. |
| Redaction.Redact | src/trading_research/logging_config.py:108-216 | From the top the call depth is at most 1 + 64 + 8. |
| Redaction.EventDict.RedactAll | src/trading_research/logging_config.py:224-229 | The loop redacts every field of the event in place, masks those with a sensitive key and leaves the bookkeeping ones; no key comes or goes. |
| Redaction.FieldIsClean | src/trading_research/logging_config.py:224-229 | The two bookkeeping fields stay; every other field of the event ends clean, one with a sensitive key as the marker and any other as its own redaction. |
| Redaction.RedactedIsClean | src/trading_research/logging_config.py:108-216 | At any depth of the result a sensitive key holds the marker and every text that is a value is scrubbed; texts of mapping keys stay as they are. |
| Redaction.SensitiveExactly | src/trading_research/logging_config.py:83-84 | A key is sensitive exactly when one of the six words stands anywhere in it, in letters of any case. |
| Redaction.ItemsExactly | src/trading_research/logging_config.py:181-191 | A plain list or tuple keeps its kind and its members, each redacted in place; of any other sequence texts come out as an ordered list, and what cannot be sorted as a tuple. |
| Redaction.MappingExactly | src/trading_research/logging_config.py:173-180 | A mapping keeps its keys in order, each with its value redacted or the marker. |
| Redaction.CutOffExactly | src/trading_research/logging_config.py:173-209 | A container is cut off when met inside itself or below 64 others, a hook below eight others; a raising hook and an unreadable wrapper are told apart. |
| Redaction.TextsAreReordered | src/trading_research/logging_config.py:181-191 | A set, or a subclass of list or tuple, of texts comes out as an ordered list of the same members, never a tuple, and keeps its order exactly when it was ordered already. |
| Redaction.NamedPairIsSorted | src/trading_research/logging_config.py:181-191 | A two-field named tuple of texts becomes a list, with its fields swapped exactly when the second text sorts first. |
| TextOrder.SortedIsOrderedPermutation | src/trading_research/logging_config.py:188-189 | Sorted texts are in order and the same texts. |
| TextOrder.PrecedesExactly | src/trading_research/logging_config.py:188-189 | One text sorts before another exactly when it is smaller at the first difference or is a beginning of it. |
| Redaction.DepthBoundIsReached | src/trading_research/logging_config.py:89-102 | The bound is attained by 64 nested lists around an object whose hook returns itself. |
| Redaction.RedactionIsUnbounded | src/trading_research/logging_config.py:100-216 | On well-founded graphs within the limits the result is that of a walk without cycle check and limits: nothing is cut off. |
| BranchNames.SearchIsScan | scripts/migration_helper.py:242 | The pattern's backtracking search equals one scan that gives back a single zero of an all-zero number. |
| BranchNames.BranchBelongsExactly | scripts/migration_helper.py:275-282 | A branch maps to a phase exactly when it is the prefix, any zeros, the minimal identifier and then an end, a dash or a slash. |
| BranchNames.PrefixReadsBack | scripts/migration_helper.py:265-282 | The printed prefix with any description reads back as the phase without superfluous zeros, hence as the phase itself exactly when it has none. |
| BranchNames.PrefixIs | scripts/migration_helper.py:265-275 | The prefix of a minimally written phase is `migration/`, the phase with a zero before a single digit, and a dash. |
| BranchNames.MinimalNameExactly | scripts/migration_helper.py:242 | Minimal identifiers are digits without a superfluous zero, then at most one small letter. |
| BranchNames.PhasesClaimOwnBranches | scripts/migration_helper.py:265-282 | Phases claim each other's branches only when they differ by leading zeros at most. |
| Checks.AggregateCiState | scripts/migration_helper.py:288-326 | The loop gives the state of the whole rollup and the failing names in order. |
| Checks.AggregatedIsPessimistic | scripts/migration_helper.py:288-326 | Passing is reported exactly for a non-empty rollup of which every check passes. |
| Checks.JudgedByKnownOutcomes | scripts/migration_helper.py:301-320 | A check passes exactly on one of the known good outcomes and fails exactly on one of the known bad ones, in letters of any case; a run says nothing before it is over, and anything else is pending. |
| Checks.FailingChecksAreNamed | scripts/migration_helper.py:288-326 | The names reported are exactly those that the failing checks go by: name, else context, else unnamed. |
| Phases.ByPhase | scripts/migration_helper.py:526-530 | Grouping files every pull request under its phase, in order, and opens no empty group. |
| Phases.BuildSituation | scripts/migration_helper.py:636-677 | The grouped computation gives the specified situation. |
| Phases.ActiveExactly | scripts/migration_helper.py:533-603 | A phase is active exactly when it is the documented current one with nothing merged, or the documented next one with nothing merged after the current one is finished; hence current, next or none. |
| Phases.SuccessorIsDocumented | scripts/migration_helper.py:156-165 | A successor is reported exactly for an active documented current phase, and is the documented next one; after an advance there is none. |
| Phases.NextPhaseReadyExactly | scripts/migration_helper.py:606-677 | A phase is offered to be started exactly when no pull request of any kind exists for it. |
| Phases.ActiveIsUnmerged | scripts/migration_helper.py:606-633 | Classifying the active phase never finds it merged: that result is unreachable. |
| Phases.MergedExactly | scripts/migration_helper.py:636-677 | The roadmap is reported finished exactly when the last documented phase is merged with nothing open and no next phase. |
| Phases.HumanAttentionExactly | scripts/migration_helper.py:533-677 | A human is asked for exactly when the documents contradict the pull requests, several are open for the active phase, or all of its pull requests were closed without merging. |
| Phases.ReportedExactly | scripts/migration_helper.py:606-633 | A pull request is reported exactly when one alone is open for the active phase, and its draft flag and checks decide what is said of it. |
| Phases.LookedUpFields | scripts/migration_helper.py:700-722 | The look-up keeps number and phase of the pull request and learns its draft flag and checks. |
| Phases.OrderIsIrrelevant | scripts/migration_helper.py:526-677 | Listing the pull requests in another order changes nothing, not even which one is reported. |
| Phases.DiscoveryKeepsActiveExactly | scripts/migration_helper.py:700-722 | For every list, repeated numbers included, the look-up keeps the active phase exactly unless an advance rests only on merged pull requests of the very number it replaces, and then falls back to the documented current phase. |
| Phases.DiscoveryKeepsPhase | scripts/migration_helper.py:700-722 | The look-up keeps phase, successor and reported pull request, updating only what is said of it, exactly when its number is listed once; otherwise nothing is reported and a human is asked for, or the phase is taken back. |
| Phases.RewoundSituation | scripts/migration_helper.py:700-722 | After taking the phase back no pull request is reported, and the finished phase is offered anew exactly when all its pull requests carried the replaced number. |
| Phases.DistinctNumbersKeepPhase | scripts/migration_helper.py:404-436 | A listing without repeated numbers never takes the phase back. |
| Phases.ReadyExactly | scripts/migration_helper.py:606-722 | Ready for review is reported exactly for a reported open pull request, listed once, that is no draft and whose checks all pass. |
| Phases.UnfinishedExactly | scripts/migration_helper.py:606-722 | A reported pull request listed once is in progress exactly as a draft, failing exactly with a failing check, and otherwise pending unless every check passes. |
| Phases.SharedNumberRewindsPhase | scripts/migration_helper.py:715-721 | Were a merged and an open pull request to share a number, the look-up would take the phase back. |
| Phases.NamedPullRequestIsSeen | scripts/migration_helper.py:265-282 | A pull request on a branch with the expected prefix of a minimally written phase keeps that phase from being offered again. |
| Phases.PaddedPhaseIsNeverSeen | scripts/migration_helper.py:275-282 | A current phase written with a superfluous zero is offered to be started whatever pull requests exist. |

## Left out

- Amounts are exact: IEEE-754 and decimal rounding in prices and averages are not modelled; the tolerance of `_require_agrees` is.
- Timestamps, `updated_at`, expiry parsing, broker order ids, account fingerprints and market values are opaque or absent.
- Time in force and the exact field sets of payloads are taken as already checked; sides, statuses, decimals and quantities are normalised as in `normalization.py`.
- Most recent orders: any listing of any orders in any order stands for it, so the sort by submission time is not modelled.
- The gateway keeps an order's snapshot, submitted side and fingerprint in separate dictionaries with the same keys; the model keeps one entry per order.
- Account and position read-outs, health and capability operations compute nothing that spans steps.
- Alpaca gateway: cancellation, fills, status mapping and connection verification are not part of this model; a lookup answers truthfully, fails, or denies an existing order.
- Limit prices of the Alpaca gateway: a text is a number for it exactly when it is one for the decimal parser, so `nan` and `inf`, which a float reads, are not modelled.
- Intent sides that are a blank or non-text value are one kind of unreadable side.
- `_derive_orders` of the legacy engine and the order of reported positions.
- Defaults for NaN cells of the broker's event table, and the rejection of unknown fields, wrong types and unreadable dates in input documents.
- TA-Lib, RSI, Bollinger bands, slopes and the rounding of displayed indicator values; the moving average is taken as seeded by the simple average.
- Telemetry: an API setter that raises, exporters, resources and the environment variables that pick a provider.
- Alembic's own walk: it is taken to list a finite acyclic graph, successors before predecessors. The order in which branches are reported is left open.
- Error messages and the reasons given with a situation; which of several errors a refused configuration raises first is modelled but not stated.
- Decimal exponents beyond the context's limits, subclasses of the accepted types, and SHA-256.
- Lower and upper case are those of ASCII letters.
- Secret patterns and registered secrets: scrubbing a text is one opaque function. Plain-text logging, which redacts strings only, is not modelled.
- AdmissionRuns.DispatcherRunsAreSafe: assumes what the gateway does not check itself, namely that scripts are monotone and given to active orders, that sales of a symbol are settled when a sell of it is validated, and that `submit_order` gets a non-empty symbol.
- Redaction.RedactedIsClean: assumes that sorting elements that are not all texts returns a permutation of them, if anything.
- Reading the documents' Markdown, the GitHub queries, and the offline situation.
