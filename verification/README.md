# Charkhoone: verified models of the funding protocol, messaging, image codec and money policies

Charkhoone finances residential leases: a bank loan freezes part of a deposit, the tenant contributes the rest, and the
owner gets rent and deposit through a fund. This project models the parts of the system in which money, status and
outside parties meet, and proves what they guarantee. `dafny verify dfyconfig.toml` checks everything.

## The credit-to-lease protocol

Each service is a saga: short database transactions with a call to an untrusted adapter in between. `FundingRows` holds
the rows of one application. `Intake`, `Registration`, `Eligibility`, `BankFunding` and `LeaseFunding` specify every
transaction as a function from rows to a commit, a rollback or an exception, with the reply or what the call goes on
with. `IntakeService`, `RegistrationService`, `EligibilityService`, `BankFundingService`, `TenantContributionService`
and `LeaseService` are the same transactions as the program performs them: tracked rows changed one after the other
through `FundingContext.DbContext`, published on commit, discarded on rollback. Each method is proved equal to its
specification.

`Columns` says what the database makes of a value: texts of bounded length without U+0000, times of whole
microseconds. A transaction whose rows do not fit it throws and leaves no trace.

`FundingProtocol` is the state machine: any number of calls between two of their transactions, any answer at any time,
and a crash of any call at any point. A transaction that locks the application is one step: every row it reads is written
under that lock, or is written once (the terms), or is the lease, whose status nothing moves before there is an
allocation and none of them reads after. The lease funding service locks the lease only, so each of its reads of other
tables is a step of its own. While it holds the lease, everything waits that locks the lease or adds a row with a foreign
key to it: terms, allocation, principal and contribution. `FundingInvariant` states one inductive invariant over all
services, what a call may rely on meanwhile, and what no transaction takes back; `FundingSteps`, `MoneySteps` and
`LeaseSteps` prove it for each transaction.
`FundingSystem` runs the service objects under an arbitrary schedule and shows that they follow the state machine.

The results are in `FundingTheorems` (every reachable world), `FundingRefusals` (what can abort a transaction),
`FundingStarts` and `FundingAnswers` (what each call and each answer decides, by cases), `FundingOrigins` (who said what
the rows claim), `FundingProgress`, `FundingCompletion` and `AdvanceRuns` (calls from start to end), `FundingFullRun`
(runs that exist) and `FundingFailures` (runs that fail). `WorkerTurns` models the worker's ordered and bounded
candidate queries over many applications; `BankTurns`, `TenantTurns` and `LeaseTurns` say for the three funding queries
whose turn comes.

What turned out to fail, each with its exact condition and a run that shows it:

- An application whose deposit times ratio is below one rial gets a decision with a zero ceiling and can never go on
  (`BankStartsUnlessCeilingIsZero`; one rial of cash and no rent in `OneRialIsStuck`).
- An answer whose texts do not fit their columns throws when it is saved and is lost, for every adapter
  (`AnswerIsLostIff`; a reference of 257 characters in `LongReferenceIsLost`). So is the answer of a bank that declines
  with a reference and also names an amount outside zero to the ceiling (`BankAnswerIsLostIff`; minus one rial in
  `BadDeclineIsLost`).
- Evidence whose due times are no whole microseconds never matches its own stored terms again, so a reconciliation that
  crashed after capturing them cannot be repeated (`CapturedEvidenceRegistersIff`; one tick too many in
  `OneTickIsStuck`).
- A crash between the committed bank approval and the first freeze row leaves an application the reconciliation worker
  does not select (`WorkerSelectsExactly`, `CrashLeavesUnselected`); `bank-funding-worker-reconciliation-v1.md` asks for
  an existing freeze row, so the code follows its documentation there. A call by the applicant still completes it
  (`BankCallFunds`).
- The worker's tenant query compares a trimmed fund reference with an untrimmed one and misses contracts whose fund
  answered with surrounding white space (`TenantWorkerSelectsExactly`; a leading blank in `LeadingBlankIsUnselected`).
- A pass of the worker takes the candidates with the oldest time, as many as fit a batch, and one that is called and
  changes nothing stays in front. Bank and fund approvals are reached in time unless as many answers as a batch holds are
  lost (`BankTurnComes`, `LostAnswersBlock`); tenant contributions unless as many transfers stay open
  (`TenantTurnComes`, `OpenTransfersBlock`), since their order is by a time that is never written again; leases unless as
  many in front wait for their tenants (`LeaseTurnComes`, `WaitingLeasesBlock`). For every batch size there is a fully
  funded lease that the worker never activates, in any number of passes (`PaidLeaseIsPassedOver`).

## Messages

`Outbox` and `OutboxTheorems` model the dispatcher: batches under row locks, publishes with confirms, early exit,
rollback. `Inbox` and `InboxTheorems` model the cancellation notification consumer with an exception or crash possible
between any two of its commits, including commits that took effect although an exception was reported; `InboxOutcomes`
says what a delivery comes to for every message and reply, and for which reason; `NotificationConsumer` is the
consumer's own control flow over its rows. `MessageSystem` joins the two through a broker that may drop, repeat and
reorder.

The guarantee of one outcome per message holds when a message is not handled twice at the same time. The rows carry no
lock or concurrency token, so overlapping handlings deliver twice, for every readable message
(`OverlappingHandlingsDeliverTwice`); the documentation relies on the provider's own idempotency there. A message whose
id is the empty GUID is requeued for ever (`EmptyIdIsNeverFinished`). And when the audit row does not take what the
provider calls itself, the message is delivered at every attempt and none of the deliveries is recorded
(`UnsavedReplyDeliversEveryTime`; 244 letters in `LongNameIsUnsaved`).

## PNG codec

`PngFilter`, `PngCrc`, `PngContainer`, `PngRoundTrip` and `PngIcon` model the hand-written codec of the mobile app's
configuration against RFC 2083: sections 6.2 to 6.6 for the filters, 3.2 for the chunk layout, 3.4 and 15 for the
checksum. Inflate and deflate are parameters. `PngStandard` gives filters, byte order and chunk layout once more in the
standard's own words, apart from the code, and shows that encoder and decoder follow them. `PngCrcDetection` adds what
the checksum is good for.

## Money policies

`Arrears`, `ArrearsTheorems` and `Contribution` cover tenant arrears, the contribution balance with its reservations,
and the cancellation split; `Cancellation` says when a split is refused and that it deducts the sum of the accruals.
`Decimals` models .NET decimal arithmetic: a 96-bit coefficient, at most 28 decimals, exact results rounded to the
nearest representable value, ties to even. `DepositConversion` shows that rounding never moves a deposit across a rial.
`LostFundReturn`, `LostFundReturnExact`, `LostFundReturnAnyAmount` and `LostFundReturnLoss` show that it can move a
lost-fund return: the comment in `LostFundReturn.cs` promises one final floor, and eight hours on 9125 rials are paid
one rial less than that. Up to a million million rials and ten thousand days this happens exactly when the return is a
whole number of rials, the elapsed days were rounded down, and what that takes from the interest outweighs the last
rounding (`PaysExactUnlessShort`, with `ShortByOne` as the condition). Beyond five million million rials a return that
is not whole can be paid short as well (`LargeReturnFallsShort`), and one just below a whole rial can be paid one rial
too much (`LargeReturnPaysOneMore`). For every amount the three roundings come down to one comparison
(`PaysAtLeastIff`): what the rounded days take from the interest, less the fraction of a rial in the exact return,
against what the last rounding puts back. `Delinquency` and `Maturity` cover the missed-month tracker and the gate into
normal settlement; `Sorting` is the stable order they and the arrears share with registration.

## Model

| member | source | states |
|---|---|---|
| FundingTheorems.BankMoneySafety | src/Charkhoone.Infrastructure/BankFunding/EfBankFundingService.cs:243-271 | In every reachable world: no allocation while bank approval is pending, an allocation and no principal while funding is pending, and a frozen principal exactly when the application is ApprovedFunded, for the bank and amount of the allocation |
| FundingAnswers.BankAnswerDecides | src/Charkhoone.Infrastructure/BankFunding/EfBankFundingService.cs:273-402 | While the bank is asked, for every reachable world and every answer that is not lost: the application is Rejected, with approval Declined, the trimmed reference and reply BankDeclined, exactly on a decline with a reference; FundingPending with the approved amount as the loan of a new allocation exactly on an approval of a whole positive amount up to ceiling and deposit; ExternalCheckIndeterminate, with an unclear approval and no amount, on anything else |
| FundingAnswers.FreezeAnswerDecides | src/Charkhoone.Infrastructure/BankFunding/EfBankFundingService.cs:472-580 | While funding is pending a fund answer that is not lost books exactly the loan as principal at the plan's bank under the trimmed reference and funds the application, if it confirms with both references, and leaves the freeze unclear with no principal otherwise; at any other time it changes nothing |
| FundingAnswers.TransferAnswerDecides | src/Charkhoone.Infrastructure/TenantContributionFunding/EfTenantContributionFundingService.cs:186-425 | An answer about the tenant's money that is not lost posts exactly the contribution if it confirms that amount with a reference, marks the transfer failed if it failed and unknown otherwise, and changes nothing once a contribution is posted |
| FundingAnswers.GradeAnswerDecides | src/Charkhoone.Infrastructure/CreditEligibility/EfCreditEligibilityService.cs:128-327 | A grade answer that is not lost completes the decision with ratio and ceiling over the deposit of the terms exactly when it is valid and its sub-grade in the table; otherwise it records an indeterminate check with neither; a completed decision stays |
| FundingAnswers.EvidenceAnswerDecides | src/Charkhoone.Infrastructure/Contracts/EfPropertyContractRegistrationService.cs:157-456 | An evidence answer that is not lost opens or keeps the contract of the two parties it names and goes on to its terms exactly when it is accepted, its owner known and the parties those on record; documents, an unusable answer or an unknown owner are recorded, other parties are a conflict, and past registration nothing changes |
| FundingAnswers.CaptureDecides | src/Charkhoone.Infrastructure/Contracts/EfLeaseContractTermsService.cs:20-205 | The first evidence that fits fixes the terms; the same evidence goes on with them, any other is a conflict |
| FundingAnswers.FinalizeDecides | src/Charkhoone.Infrastructure/Contracts/EfPropertyContractRegistrationService.cs:458-558 | Registration ends with ExternalChecksPending and a confirmed request exactly while the contract is pending and the request still quotes the source of the terms; past it the reply says so and nothing changes |
| FundingAnswers.IdentityAnswerDecides | src/Charkhoone.Infrastructure/IdentityVerification/EfCreditApplicationIdentityService.cs:98-226 | The first verdict on an identity moves the application on to the plan or to missing documents, an unclear one leaves it where it is, and a later answer changes nothing |
| FundingAnswers.FinalStatusStays | src/Charkhoone.Domain/CreditApplications/CreditApplicationWorkflow.cs:26-44 | Rejected and ApprovedFunded are never left, in any continuation of any run |
| FundingStarts.BankCallDecides | src/Charkhoone.Infrastructure/BankFunding/EfBankFundingService.cs:41-198 | In every reachable world a bank call of the applicant asks the bank, asks it again or goes to the fund, with the one transition and row this takes, by status, decision and allocation alone, and is refused otherwise, a ceiling below one rial included |
| FundingStarts.FreezeCallDecides | src/Charkhoone.Infrastructure/BankFunding/EfBankFundingService.cs:412-460 | Before asking the fund it writes one freeze row for its allocation or takes the one that is there |
| FundingStarts.ContributionCallDecides | src/Charkhoone.Infrastructure/TenantContributionFunding/EfTenantContributionFundingService.cs:20-174 | A contribution call asks for exactly the contribution under one transfer that later calls take up again; it is refused without a contribution to pay or before the principal is frozen |
| FundingStarts.GradeCallDecides | src/Charkhoone.Infrastructure/CreditEligibility/EfCreditEligibilityService.cs:45-119 | A grade is asked for exactly between registration and decision, over the deposit of the terms |
| FundingStarts.ContractCallDecides | src/Charkhoone.Infrastructure/Contracts/EfPropertyContractRegistrationService.cs:47-155 | Evidence is asked for exactly while the property contract is pending, under one request |
| FundingStarts.PlanCallDecides | src/Charkhoone.Infrastructure/CreditApplications/EfCreditApplicationServices.cs:158-313 | A plan is chosen once, published and of twelve months, out of PlanSelectionPending; every other choice has its own refusal and changes nothing |
| FundingStarts.SubmitCallDecides | src/Charkhoone.Infrastructure/CreditApplications/EfCreditApplicationServices.cs:57-156 | A draft is submitted once |
| FundingStarts.IdentityCallDecides | src/Charkhoone.Infrastructure/IdentityVerification/EfCreditApplicationIdentityService.cs:32-89 | An identity check is asked for until it has a verdict |
| FundingStarts.StrangersFindNothing | src/Charkhoone.Infrastructure/BankFunding/EfBankFundingService.cs:52-62 | A caller other than the applicant is told that there is no such application, and nothing changes |
| FundingOrigins.NothingIsUnsaid | src/Charkhoone.Infrastructure/BankFunding/EfBankFundingService.cs:243-580 | In every run the submission, the verified identity, the published plan, the contract parties, the grade, the rejection, the loan, the frozen principal and the posted contribution on record are each something the applicant or the adapter in charge said in an event of that run, amounts and trimmed references included |
| FundingOrigins.OnlyTheVerifiedGetOn | src/Charkhoone.Infrastructure/IdentityVerification/EfCreditApplicationIdentityService.cs:156-214 | Whatever happens, an application past the identity check has a verified identity, and past the plan selection a twelve-month plan of the catalogue |
| FundingOrigins.TermsAreTheEvidence | src/Charkhoone.Infrastructure/Contracts/EfLeaseContractTermsService.cs:120-205 | In every reachable world with terms on record some evidence of the provider has their cash, rent, start date, beneficiaries, source and twelve months field by field, the deposit being cash plus a hundred thirds of the rent rounded down and each due time cut to the microsecond, and names the parties of the contract |
| FundingOrigins.ReceivedWasSaid | src/Charkhoone.Infrastructure/Contracts/EfPropertyContractRegistrationService.cs:560-659 | And that evidence is a validated answer given in an event of the run |
| FundingTheorems.CommittedMoneyIsFinal | src/Charkhoone.Infrastructure/BankFunding/EfBankFundingService.cs:345-375 | Whatever events follow, a committed plan, contract, terms snapshot, decision, allocation, principal and contribution stay as they are and the transition logs only grow |
| FundingRefusals.OnlyRefusalsThrow | src/Charkhoone.Infrastructure/BankFunding/EfBankFundingService.cs:706-729 | In no run does a workflow move throw, a unique key of the protocol rows fire, a re-read row go missing or an argument check fail; only the database refusing what an adapter said can abort a transaction: a text that does not fit, a due time that is not UTC or falls together with another, or the amount check of the approval table |
| FundingRefusals.AnswerIsLostIff | src/Charkhoone.Infrastructure/Persistence/Configurations/BankFundingRowConfigurations.cs:23-29 | Whichever call waits in whichever reachable world, its answer is lost exactly under the condition Refused, which names for each adapter the texts, times and amounts the columns do not take; the rows then stay as they were |
| FundingRefusals.BankAnswerIsLostIff | src/Charkhoone.Infrastructure/BankFunding/EfBankFundingService.cs:273-313 | A bank answer is lost exactly when it is in time and the provider name exceeds 128 characters, the reason 256, the reference 256 (trimmed if the answer settles the request, as it came if not), or it declines and names an amount outside zero to the ceiling |
| FundingRefusals.BeginNeverThrows | src/Charkhoone.Infrastructure/BankFunding/EfBankFundingService.cs:41-186 | No first transaction of any call throws in any reachable world |
| FundingTheorems.NoPrincipalMismatch | src/Charkhoone.Infrastructure/BankFunding/EfBankFundingService.cs:484-554 | A fund answer, however late, is refused exactly when the application left FundingPending, lost exactly when its texts do not fit, and otherwise committed, funding exactly on a confirmed answer with both references: the mismatch branch is never taken |
| FundingTheorems.DecisionBeforeBank | src/Charkhoone.Domain/CreditApplications/CreditApplicationWorkflow.cs:26-44 | Every committed request to the bank has an earlier transition into DecisionReady, although the bare table has a way round it |
| FundingTheorems.LogOf | src/Charkhoone.Domain/CreditApplications/CreditApplicationWorkflow.cs:69-115 | The committed transition rows form a gapless path of table edges from Draft to the current status, and the lease rows likewise |
| FundingTheorems.IndeterminateIsUnambiguous | src/Charkhoone.Infrastructure/CreditEligibility/EfCreditEligibilityService.cs:94-108 | In ExternalCheckIndeterminate exactly one of grading, bank approval and principal freeze goes on, decided by whether a decision is complete and an allocation exists |
| FundingTheorems.BankStartsUnlessCeilingIsZero | src/Charkhoone.Infrastructure/BankFunding/EfBankFundingService.cs:767-771 | From DecisionReady a bank request starts if and only if deposit times ratio reaches one rial; otherwise every call is refused and the application stays where it is |
| FundingTheorems.RegistrationKeepsOneTruth | src/Charkhoone.Infrastructure/Contracts/EfPropertyContractRegistrationService.cs:206-336 | Past registration, contract parties, terms and confirmed request come from one validated evidence, even when reconciliations interleave or crash |
| FundingTheorems.ActiveLeaseIsFunded | src/Charkhoone.Infrastructure/Contracts/EfLeaseFundingLifecycleService.cs:102-253 | A reachable active lease belongs to a funded application; deposit, ceiling, loan, contribution, frozen principal and posted contribution satisfy the whole chain of equations |
| FundingTheorems.ActiveLeaseSchedule | src/Charkhoone.Infrastructure/Contracts/EfLeaseFundingLifecycleService.cs:294-311 | Its twelve months are numbered 1 to 12 and fall due strictly one after the other, over any distance |
| FundingTheorems.AdvanceRefusesOnlyForTheTenant | src/Charkhoone.Infrastructure/Contracts/EfLeaseFundingLifecycleService.cs:19-253 | Whatever is committed between its reads, on an open contract the service answers InvalidState exactly when it read a failed tenant transfer; bank, fund and terms never make it refuse; it activates exactly when the lease is fully funded at the moment it decides; a commit takes the lease to where the rows of that moment allow, writes one lease row per counted transition and nothing else |
| AdvanceRuns.AdvanceAlone | src/Charkhoone.Infrastructure/Contracts/EfLeaseFundingLifecycleService.cs:19-253 | Undisturbed from start to end, it is refused exactly when the tenant transfer failed, and otherwise moves the lease to the furthest status its rows allow |
| AdvanceRuns.RefusalHasAReason | src/Charkhoone.Infrastructure/Contracts/EfLeaseFundingLifecycleService.cs:320-345 | Over any run that contains the call, a refusal means that the transfer stood as failed at some point of the run |
| LeaseSteps.AdvanceOutcome | src/Charkhoone.Infrastructure/Contracts/EfLeaseFundingLifecycleService.cs:102-253 | For any rows read at different times under the lease lock the commit equals one jump to the furthest status they allow, with the transition rows in between, or the refusal exactly for a failed transfer |
| FundingTheorems.WorkerSelectsExactly | src/Charkhoone.Worker/FinancialReconciliationWorker.cs:81-110 | Of all reachable rows the reconciliation query selects exactly pending bank approvals, started freezes and decided indeterminate applications; FundingPending without a freeze row is passed over |
| FundingTheorems.TenantWorkerSelectsExactly | src/Charkhoone.Worker/FinancialReconciliationWorker.cs:132-179 | The tenant query selects exactly the funded, unposted, open contracts whose freeze reference carries no surrounding white space |
| WorkerTurns.BatchTakesTheFirst | src/Charkhoone.Worker/FinancialReconciliationWorker.cs:112-117 | Ordering by time and id and taking a batch picks exactly the rows with fewer than that many ahead of them |
| WorkerTurns.PassMovesUp | src/Charkhoone.Worker/FinancialReconciliationWorker.cs:119-130 | A pass leaves whoever waits alone, with exactly those fewer ahead that gave up their place |
| WorkerTurns.TurnComes | src/Charkhoone.Worker/FinancialReconciliationWorker.cs:112-130 | Over any run of passes, with other callers about: if enough candidates give up their place in each, a candidate is taken within a stated number of passes |
| WorkerTurns.TurnNeverComes | src/Charkhoone.Worker/FinancialReconciliationWorker.cs:112-130 | If as many candidates as a batch holds are ahead and keep their place, it is never taken, whatever becomes of the rest |
| BankTurns.BankCallReleases | src/Charkhoone.Worker/FinancialReconciliationWorker.cs:119-130 | From every reachable selected state and for all answers a worker call ends and writes a transition, hence a later time, if and only if its answer is not lost; otherwise nothing at all has changed |
| BankTurns.BankTurnComes | src/Charkhoone.Worker/FinancialReconciliationWorker.cs:81-130 | A selected application is called in time while fewer answers than a batch holds are lost in each pass |
| BankTurns.LostAnswersBlock | src/Charkhoone.Worker/FinancialReconciliationWorker.cs:81-130 | As many applications as a batch holds whose answers are always lost keep everyone behind them from ever being called |
| TenantTurns.TenantCallReleases | src/Charkhoone.Worker/FinancialReconciliationWorker.cs:186-197 | From every reachable selected state and for all answers a tenant call leaves the application selected if and only if the answer does not settle the transfer |
| TenantTurns.TenantTurnComes | src/Charkhoone.Worker/FinancialReconciliationWorker.cs:132-197 | A selected application is called in time while fewer transfers than a batch holds stay open in each pass |
| TenantTurns.OpenTransfersBlock | src/Charkhoone.Worker/FinancialReconciliationWorker.cs:132-197 | As many open transfers as a batch holds keep everyone behind them from ever being asked about |
| LeaseTurns.LeaseCallReleases | src/Charkhoone.Worker/FinancialReconciliationWorker.cs:212-218 | An advance of a selected lease writes a transition if and only if its transfer has not failed and its rows allow a further status; otherwise nothing at all has changed |
| LeaseTurns.LeaseTurnComes | src/Charkhoone.Worker/FinancialReconciliationWorker.cs:200-218 | A selected lease is called in time while fewer leases than a batch holds wait in each pass |
| LeaseTurns.WaitingLeasesBlock | src/Charkhoone.Worker/FinancialReconciliationWorker.cs:200-218 | As many waiting leases as a batch holds keep every lease behind them from ever being called |
| FundingProgress.BankCallFunds | src/Charkhoone.Infrastructure/BankFunding/EfBankFundingService.cs:123-241 | One uninterrupted call with a valid approval and a confirmed freeze, both of which fit their columns, ends in ApprovedFunded from every state an earlier call may have left, when nobody holds the lease row |
| FundingProgress.SelectedMeansFundable | src/Charkhoone.Worker/FinancialReconciliationWorker.cs:112-130 | So every application the worker selects is one such call away from ApprovedFunded |
| FundingCompletion.ReconcileRegistersIff | src/Charkhoone.Infrastructure/Contracts/EfPropertyContractRegistrationService.cs:25-336 | From PropertyContractPending one uninterrupted reconciliation registers the contract if and only if its evidence is valid and fits the columns, its owner is known, and it agrees with what earlier reconciliations left |
| FundingCompletion.CapturedEvidenceRegistersIff | src/Charkhoone.Infrastructure/Contracts/EfLeaseContractTermsService.cs:20-205 | Evidence whose terms are already on record registers again if and only if all its due times are whole microseconds |
| FundingFullRun.FundedRun | src/Charkhoone.Infrastructure/BankFunding/EfBankFundingService.cs:315-402 | For every plan, valid evidence and grade that fit their columns, every whole positive loan up to the ceiling and every fund reference that fits, some run funds the application with exactly this loan and aborts nowhere |
| FundingFullRun.EveryCeilingLoanIsReachable | src/Charkhoone.Infrastructure/BankFunding/EfBankFundingService.cs:315-402 | And some run makes the lease active with exactly this loan |
| FundingFullRun.CrashLeavesUnselected | src/Charkhoone.Worker/FinancialReconciliationWorker.cs:97-106 | For the same inputs some run crashes after the bank answer is committed and leaves a FundingPending application the worker never selects |
| FundingFailures.ZeroCeilingIsStuck | src/Charkhoone.Infrastructure/BankFunding/EfBankFundingService.cs:767-771 | For every input whose ceiling is zero some run ends in DecisionReady, where every bank call is refused |
| FundingFailures.OneRialIsStuck | src/Charkhoone.Infrastructure/BankFunding/EfBankFundingService.cs:767-771 | One rial of cash and no rent are such an input |
| FundingFailures.RefusedAnswerIsLost | src/Charkhoone.Infrastructure/BankFunding/EfBankFundingService.cs:243-313 | For every bank answer that is refused whatever was asked, some run loses it: the exception is the only trace and the application goes on waiting for the bank |
| FundingFailures.BadDeclineIsLost | src/Charkhoone.Infrastructure/Persistence/Configurations/BankFundingRowConfigurations.cs:16-18 | A decline that names minus one rial is such an answer |
| FundingFailures.LongReferenceIsLost | src/Charkhoone.Infrastructure/Persistence/Configurations/BankFundingRowConfigurations.cs:28 | So is an approval with a reference of 257 characters |
| FundingFailures.PaddedReferenceIsUnselected | src/Charkhoone.Worker/FinancialReconciliationWorker.cs:132-179 | For every fund reference with white space around it some run funds the application and leaves a due tenant contribution the worker never selects |
| FundingFailures.LeadingBlankIsUnselected | src/Charkhoone.Worker/FinancialReconciliationWorker.cs:132-179 | A reference with one leading blank does so |
| FundingFailures.PaidLeaseIsPassedOver | src/Charkhoone.Worker/FinancialReconciliationWorker.cs:200-218 | For every batch size and any number of passes some fully funded lease is never activated, behind as many reachable leases whose tenants have not paid |
| FundingFailures.FractionIsStuck | src/Charkhoone.Infrastructure/Contracts/EfLeaseContractTermsService.cs:20-205 | For all evidence with a due time between two microseconds some run captures its terms, crashes, and can never register with it |
| FundingFailures.OneTickIsStuck | src/Charkhoone.Infrastructure/Contracts/EfLeaseContractTermsService.cs:20-205 | Due times one tick after the microsecond do so |
| FundingProtocol.StepKeeps | src/Charkhoone.Infrastructure/BankFunding/EfBankFundingService.cs:41-580 | Every event of every schedule keeps the inductive invariant over all services' rows and all calls in flight |
| FundingProtocol.SettleKeeps | src/Charkhoone.Infrastructure/BankFunding/EfBankFundingService.cs:254-271 | A committed transaction leaves the assumptions of every other call in flight standing |
| FundingProtocol.RunKeeps | src/Charkhoone.Infrastructure/Contracts/EfLeaseFundingLifecycleService.cs:19-253 | The invariant holds after any run from any world that satisfies it |
| FundingSystem.System.Serve | src/Charkhoone.Infrastructure/BankFunding/EfBankFundingService.cs:18-241 | Running the service objects under any schedule ends where the protocol's run ends |
| FundingSystem.System.Handle | src/Charkhoone.Infrastructure/Contracts/EfPropertyContractRegistrationService.cs:25-336 | One scheduler event changes rows and calls in flight exactly as the protocol step does |
| MoneySteps.BankAnswerSafe | src/Charkhoone.Infrastructure/BankFunding/EfBankFundingService.cs:243-402 | A bank answer keeps the invariant for any captured plan and eligibility, stale or not |
| MoneySteps.FreezeAnswerSafe | src/Charkhoone.Infrastructure/BankFunding/EfBankFundingService.cs:472-580 | A freeze answer keeps it as well |
| MoneySteps.AllocationAlwaysMatches | src/Charkhoone.Infrastructure/BankFunding/EfBankFundingService.cs:659-689 | A stored allocation always passes the trusted-state comparison with what later calls read |
| MoneySteps.DecisionMatchesSnapshot | src/Charkhoone.Infrastructure/BankFunding/EfBankFundingService.cs:582-657 | A completed decision always matches the trusted contract snapshot |
| FundingSteps.CaptureSafe | src/Charkhoone.Infrastructure/Contracts/EfLeaseContractTermsService.cs:20-205 | Capturing terms keeps the invariant even for evidence that lost a race |
| FundingSteps.FinalizeSafe | src/Charkhoone.Infrastructure/Contracts/EfPropertyContractRegistrationService.cs:458-558 | Finalizing keeps it, whichever reconciliation left the request in its present state |
| FundingSteps.GradeAnswerSafe | src/Charkhoone.Infrastructure/CreditEligibility/EfCreditEligibilityService.cs:128-327 | A grade answer keeps it and never overwrites a completed decision |
| MoneySteps.ContributionAnswerSafe | src/Charkhoone.Infrastructure/TenantContributionFunding/EfTenantContributionFundingService.cs:186-425 | A tenant transfer answer keeps it |
| BankFundingService.BankFundingService.Start | src/Charkhoone.Infrastructure/BankFunding/EfBankFundingService.cs:41-186 | First transaction: reply and rows equal BankStart of the rows before it |
| BankFundingService.BankFundingService.Request | src/Charkhoone.Infrastructure/BankFunding/EfBankFundingService.cs:125-198 | Its end: approval row and status move, or the rollback of both, as BankRequest says |
| BankFundingService.BankFundingService.MatchesTrustedContractSnapshot | src/Charkhoone.Infrastructure/BankFunding/EfBankFundingService.cs:582-657 | The snapshot check with its schedule loop decides MatchesTrustedSnapshot |
| BankFundingService.BankFundingService.ApplyBankResult | src/Charkhoone.Infrastructure/BankFunding/EfBankFundingService.cs:243-402 | Reply and rows after the bank answered equal BankAnswer of the rows before |
| BankFundingService.BankFundingService.RequestFreeze | src/Charkhoone.Infrastructure/BankFunding/EfBankFundingService.cs:412-460 | Reply and rows equal FreezeStart of the rows before |
| BankFundingService.BankFundingService.ApplyFreezeResult | src/Charkhoone.Infrastructure/BankFunding/EfBankFundingService.cs:472-580 | Reply and rows after the fund answered equal FreezeAnswer of the rows before |
| TenantContributionService.TenantContributionFundingService.Start | src/Charkhoone.Infrastructure/TenantContributionFunding/EfTenantContributionFundingService.cs:20-174 | First transaction: reply and rows equal ContributionStart of the rows before it |
| TenantContributionService.TenantContributionFundingService.ApplyResult | src/Charkhoone.Infrastructure/TenantContributionFunding/EfTenantContributionFundingService.cs:186-425 | Second transaction: reply and rows after the fund answered equal ContributionAnswer |
| TenantContributionService.TenantContributionFundingService.Post | src/Charkhoone.Infrastructure/TenantContributionFunding/EfTenantContributionFundingService.cs:308-425 | Its end: reference, transfer, journal entry and contribution are written together or not at all |
| TenantContributionService.TenantContributionFundingService.ReplayContribution | src/Charkhoone.Infrastructure/TenantContributionFunding/EfTenantContributionFundingService.cs:80-105 | Once a contribution exists both transactions say so, or refuse a row that does not agree, and change nothing |
| RegistrationService.PropertyContractRegistrationService.Start | src/Charkhoone.Infrastructure/Contracts/EfPropertyContractRegistrationService.cs:47-155 | First transaction of a reconciliation equals ContractStart |
| RegistrationService.PropertyContractRegistrationService.ApplyAnswer | src/Charkhoone.Infrastructure/Contracts/EfPropertyContractRegistrationService.cs:157-206 | The three ways an evidence answer can go, as ContractAnswer says |
| RegistrationService.PropertyContractRegistrationService.ApplyEvidence | src/Charkhoone.Infrastructure/Contracts/EfPropertyContractRegistrationService.cs:206-299 | Confirmed evidence creates or checks the contract as RecordEvidence says |
| RegistrationService.PropertyContractRegistrationService.ApplyIndeterminate | src/Charkhoone.Infrastructure/Contracts/EfPropertyContractRegistrationService.cs:339-387 | An unanswered check is recorded as RecordUnanswered says |
| RegistrationService.PropertyContractRegistrationService.ApplyNeedsDocuments | src/Charkhoone.Infrastructure/Contracts/EfPropertyContractRegistrationService.cs:389-456 | Missing documents are recorded as RecordDocuments says |
| RegistrationService.PropertyContractRegistrationService.FinalizeRegistration | src/Charkhoone.Infrastructure/Contracts/EfPropertyContractRegistrationService.cs:458-558 | The last transaction equals Finalize |
| RegistrationService.PropertyContractRegistrationService.CaptureTerms | src/Charkhoone.Infrastructure/Contracts/EfLeaseContractTermsService.cs:20-205 | Capture, replay and conflict of terms as Capture says |
| RegistrationService.PropertyContractRegistrationService.ValidateCommand | src/Charkhoone.Infrastructure/Contracts/EfLeaseContractTermsService.cs:293-369 | Accepts a command exactly when it is valid, apart from the deposit check made by its caller |
| RegistrationService.TryValidateConfirmedEvidence | src/Charkhoone.Infrastructure/Contracts/EfPropertyContractRegistrationService.cs:560-659 | The validation loop returns the evidence exactly when ValidateEvidence has one |
| Registration.EvidenceAccepted | src/Charkhoone.Infrastructure/Contracts/EfPropertyContractRegistrationService.cs:560-659 | An answer is accepted exactly when its fields are usable and its months, in whatever order, can be put into a valid schedule; the evidence kept has that schedule, the parties, start date, amounts and time offset of the answer, and its beneficiaries and reference trimmed |
| Registration.EvidenceIsACommand | src/Charkhoone.Infrastructure/Contracts/EfLeaseContractTermsService.cs:293-369 | Evidence that passed registration passes the terms service's command check, becomes its terms field by field (calendar, length, start, cash, rent, deposit, beneficiaries, source, months), and passes every later service's trust check |
| Registration.KeptTermsTrusted | src/Charkhoone.Infrastructure/Persistence/Configurations/LeaseContractTermsRowConfigurations.cs:37-72 | So do the terms as the database keeps them, with due times cut to microseconds, whenever it takes them at all |
| Columns.KeptTrims | src/Charkhoone.Infrastructure/Persistence/Configurations/BankFundingRowConfigurations.cs:28 | The spaces a bounded column cuts off never change the trimmed text |
| EligibilityService.CreditEligibilityService.LoadTrustedFullDeposit | src/Charkhoone.Infrastructure/CreditEligibility/EfCreditEligibilityService.cs:329-433 | Returns the deposit exactly when contract, plan and terms are trusted |
| EligibilityService.CreditEligibilityService.Start | src/Charkhoone.Infrastructure/CreditEligibility/EfCreditEligibilityService.cs:45-119 | First transaction equals GradeStart |
| EligibilityService.CreditEligibilityService.ApplyGrade | src/Charkhoone.Infrastructure/CreditEligibility/EfCreditEligibilityService.cs:128-327 | Second transaction equals GradeAnswer |
| EligibilityService.CreditEligibilityService.MarkIndeterminate | src/Charkhoone.Infrastructure/CreditEligibility/EfCreditEligibilityService.cs:435-478 | Moves only out of ExternalChecksPending |
| LeaseService.LeaseFundingLifecycleService.LockContract | src/Charkhoone.Infrastructure/Contracts/EfLeaseFundingLifecycleService.cs:31-46 | The locked read of the lease, or the reply that there is none, as AdvanceStart says |
| LeaseService.LeaseFundingLifecycleService.AdvanceAsync | src/Charkhoone.Infrastructure/Contracts/EfLeaseFundingLifecycleService.cs:48-253 | The next read of another table, or after the last the decision, as AdvanceNext says |
| LeaseService.LeaseFundingLifecycleService.Decide | src/Charkhoone.Infrastructure/Contracts/EfLeaseFundingLifecycleService.cs:48-253 | From the rows read, the early returns, or up to three counted moves in one transaction, all undone by a later refusal, as Advance says |
| LeaseService.LeaseFundingLifecycleService.Complete | src/Charkhoone.Infrastructure/Contracts/EfLeaseFundingLifecycleService.cs:178-253 | Its last stage, from tenant readiness to activation |
| LeaseService.LeaseFundingLifecycleService.ValidateContractTermsSnapshot | src/Charkhoone.Infrastructure/Contracts/EfLeaseFundingLifecycleService.cs:255-314 | The terms check with its schedule loop decides TermsReadiness |
| IntakeService.CreditApplicationService.SubmitAsync | src/Charkhoone.Infrastructure/CreditApplications/EfCreditApplicationServices.cs:57-156 | Submission as Submit says |
| IntakeService.CreditApplicationService.SelectBankLoanPlanAsync | src/Charkhoone.Infrastructure/CreditApplications/EfCreditApplicationServices.cs:158-313 | Plan selection as SelectPlan says |
| IntakeService.CreditApplicationService.StartIdentity | src/Charkhoone.Infrastructure/IdentityVerification/EfCreditApplicationIdentityService.cs:32-89 | First identity transaction |
| IntakeService.CreditApplicationService.ApplyIdentity | src/Charkhoone.Infrastructure/IdentityVerification/EfCreditApplicationIdentityService.cs:98-226 | Second identity transaction |
| FundingRows.CheckSchedule | src/Charkhoone.Infrastructure/Contracts/EfLeaseFundingLifecycleService.cs:294-311 | The schedule loop three services share accepts exactly the valid twelve-month schedules |
| FundingContext.DbContext.ApplyTransition | src/Charkhoone.Infrastructure/BankFunding/EfBankFundingService.cs:706-729 | Status and transition row change together, or nothing does and the workflow object throws |
| Workflows.CreditApplicationWorkflow.MoveTo | src/Charkhoone.Domain/CreditApplications/CreditApplicationWorkflow.cs:69-81 | Moves along table edges only, records the edge, and keeps the recorded path gapless |
| Workflows.CreditApplicationWorkflow.ResumeFromNeedsDocuments | src/Charkhoone.Domain/CreditApplications/CreditApplicationWorkflow.cs:83-100 | Resumes only out of NeedsDocuments and only to the four resumable statuses |
| Workflows.LeaseContractWorkflow.MoveTo | src/Charkhoone.Domain/Contracts/LeaseContractWorkflow.cs:49-67 | The lease object likewise |
| Workflows.TableAllowsShortcut | src/Charkhoone.Domain/CreditApplications/CreditApplicationWorkflow.cs:35 | The bare table admits a path to bank approval with no decision |
| Rial.FullDepositIsHundredThirds | src/Charkhoone.Domain/Finance/FullDepositCalculator.cs:7-14 | The deposit is the cash plus a hundred thirds of the rent, rounded down |
| Rial.MaximumLoanBounds | src/Charkhoone.Domain/Finance/CreditAllocationCalculator.cs:5-10 | The ceiling is deposit times ratio rounded down to whole rials, and stays below the deposit |
| Rial.LoanRatioTable | src/Charkhoone.Domain/Finance/CreditGradePolicy.cs:5-37 | Exactly the trimmed letters A to E in either case with a digit from 1 to 3 have a ratio, of 55, 45, 40, 35 and 30 per cent |
| InboxTheorems.OutcomeIsUnique | src/Charkhoone.Worker/CancellationNotificationConsumer.cs:265-447 | With exceptions, crashes and redeliveries, one handling of an id at a time: no outcome before a row is processed, exactly one after, and adapter calls within attempts within the limit plus lost handlings |
| InboxOutcomes.HandlingOutcome | src/Charkhoone.Worker/CancellationNotificationConsumer.cs:265-447 | An undisturbed handling of a message that is not finished adds a delivered audit if and only if type, payload and recipient are in order and the reply can be saved and confirms the delivery with a reference; otherwise it adds exactly one review with the reason of the first check that fails, of the failed reply, or of the reply or exception that used up the last attempt, or hands the message back with that error on record while attempts are left; the adapter is called exactly when the checks pass, and no other row changes |
| InboxOutcomes.FailureOutcome | src/Charkhoone.Worker/CancellationNotificationConsumer.cs:449-496 | A recorded exception hands the message back with its error, or on the last attempt sends it to review as failed processing |
| InboxOutcomes.DeliveredWasConfirmed | src/Charkhoone.Worker/CancellationNotificationConsumer.cs:364-387 | In every run, serial or not, a delivered audit exists only for a message whose delivery the adapter confirmed with a reference when asked for it |
| InboxTheorems.LaterDeliveriesChangeNothing | src/Charkhoone.Worker/CancellationNotificationConsumer.cs:275-278 | Nothing that happens after processing touches the row, its audit, its review or the adapter |
| InboxTheorems.RestingHasAttemptsLeft | src/Charkhoone.Worker/CancellationNotificationConsumer.cs:295-297 | Between deliveries an unprocessed message has an attempt left, unless handlings of it were lost |
| InboxTheorems.HandlingDecides | src/Charkhoone.Worker/CancellationNotificationConsumer.cs:243-447 | An undisturbed handling leaves a message unprocessed if and only if all checks passed, the answer was inconclusive or could not be saved, and it was not the last attempt; then one more attempt is used up |
| InboxTheorems.FailureDecides | src/Charkhoone.Worker/CancellationNotificationConsumer.cs:449-496 | Recording an exception finishes the message or leaves it with attempts to spare |
| InboxTheorems.RetryTerminates | src/Charkhoone.Worker/CancellationNotificationConsumer.cs:243-496 | Over any run with one handling of an id at a time, exceptions between commits included: a delivery whose handling is not lost finishes the message, or did not count its attempt, or leaves strictly fewer attempts to spare |
| InboxTheorems.FinishIsARun | src/Charkhoone.Worker/CancellationNotificationConsumer.cs:243-447 | The sequential handling is a run of the step machine |
| InboxTheorems.OverlappingHandlingsDeliverTwice | src/Charkhoone.Worker/CancellationNotificationConsumer.cs:265-297 | Every readable message can be delivered twice when two handlings of it overlap |
| InboxTheorems.EmptyIdIsNeverFinished | src/Charkhoone.Worker/CancellationNotificationConsumer.cs:130-137 | A message with the empty id is handed back for ever, with no row, attempt or review |
| InboxTheorems.UnsavedReplyDeliversEveryTime | src/Charkhoone.Worker/CancellationNotificationConsumer.cs:364-387 | A provider name or reference the audit row does not take makes the adapter deliver as often as there are attempts, with no delivery recorded and a review in the end |
| InboxTheorems.LongNameIsUnsaved | src/Charkhoone.Infrastructure/Persistence/Configurations/AuditEventRowConfiguration.cs:16 | A name of 244 letters is one, behind the prefix of the actor |
| Inbox.StepKeeps | src/Charkhoone.Worker/CancellationNotificationConsumer.cs:265-447 | The invariant behind these, over every event |
| NotificationConsumer.CancellationNotificationConsumer.HandleAsync | src/Charkhoone.Worker/CancellationNotificationConsumer.cs:243-447 | The handler's rows and outcome equal the step machine run to its end |
| NotificationConsumer.CancellationNotificationConsumer.ApplyReply | src/Charkhoone.Worker/CancellationNotificationConsumer.cs:364-446 | Delivered, failed, inconclusive and exhausted replies |
| NotificationConsumer.CancellationNotificationConsumer.RecordFailureAsync | src/Charkhoone.Worker/CancellationNotificationConsumer.cs:449-496 | Recording a failure, and whether the delivery may be acknowledged |
| NotificationConsumer.CancellationNotificationConsumer.QueueReview | src/Charkhoone.Worker/CancellationNotificationConsumer.cs:762-791 | Processed, with the reason, and one review row |
| NotificationConsumer.CancellationNotificationConsumer.Receive | src/Charkhoone.Worker/CancellationNotificationConsumer.cs:152-227 | Acknowledges exactly when the message is finished |
| Outbox.DispatchBatch | src/Charkhoone.Worker/Worker.cs:79-169 | After a dispatch the rows before the first bad publish are sent, that one carries the error, later ones are untouched, and a stopped dispatch changes nothing |
| OutboxTheorems.ProcessedMeansConfirmed | src/Charkhoone.Worker/Worker.cs:124-141 | In every interleaving of workers a processed row was confirmed by the broker, no row is lost or altered, and only rows of the table reach the broker |
| OutboxTheorems.CommittedMeansProcessed | src/Charkhoone.Worker/Worker.cs:105-168 | The other way round: a commit leaves every row published so far processed, on one more attempt and without error, the row whose publish failed unprocessed with its error, and every other row as it was |
| OutboxTheorems.OnlyCommitsWrite | src/Charkhoone.Worker/Worker.cs:105-168 | No other event writes to a row: not a confirmed or stopped publish, a crash or a selection |
| OutboxTheorems.LocksAreExclusive | src/Charkhoone.Worker/Worker.cs:86-96 | No row is ever held by two workers |
| OutboxTheorems.DispatchIsARun | src/Charkhoone.Worker/Worker.cs:105-168 | Publishing step by step and committing leaves in the table what the batch loop leaves in its rows |
| MessageSystem.TypeMismatchIsUnreachable | src/Charkhoone.Worker/CancellationNotificationConsumer.cs:280-293 | Fed from an outbox with unique ids the consumer never meets a row of another type |
| MessageSystem.DeliveredAtMostOnceAndPublished | src/Charkhoone.Worker/Worker.cs:120-137 | End to end an id is finished at most once, and only as the message its outbox row holds |
| PngFilter.ImageRoundTrip | apps/mobile/app.config.js:47-77 | For every image and every row-wise choice of the five filters, filtering by the standard and decoding gives the image back |
| PngStandard.EncodesByTheStandard | apps/mobile/app.config.js:55-72 | Every byte the encoder writes is the one RFC 2083 asks for: the byte itself, or less its left neighbour, the one above, the floor of half their sum, or the first nearest of left, up and upper left, modulo 256 |
| PngStandard.ImageDecodesByTheStandard | apps/mobile/app.config.js:47-77 | Every byte of every decoded image satisfies the same equation with the data byte and the filter of its row, beside the pixels already decoded; a missing data byte gives zero |
| PngStandard.RefusedIffUnsupported | apps/mobile/app.config.js:55-72 | An image is refused if and only if some row with pixels has no filter byte or one above four |
| PngStandard.TakenImage | apps/mobile/app.config.js:19-78 | A file that is decoded has the signature and an eight-bit RGBA header without interlace, and gives four bytes per pixel of the header's size, unfiltered from the decompressed data |
| PngStandard.DanglingBytesAreRefused | apps/mobile/app.config.js:28-45 | One to three bytes after the last whole chunk, with no end chunk, are out of range |
| PngStandard.NumbersAreInNetworkOrder | apps/mobile/app.config.js:29 | Numbers are written and read most significant byte first |
| PngStandard.ChunkLayout | apps/mobile/app.config.js:92-100 | A chunk is length, type, data and the checksum over type and data only |
| PngStandard.HeaderLayout | apps/mobile/app.config.js:32-37 | Width, height, bit depth, colour type and interlace method stand where section 4.1.1 of RFC 2083 puts them |
| PngFilter.RowRoundTrip | apps/mobile/app.config.js:55-72 | One row, for any filter and any row above |
| PngFilter.DecodePixels | apps/mobile/app.config.js:47-77 | The two nested loops fill the buffer with exactly the unfiltered rows, in bounds, or report the unsupported filter |
| PngFilter.DecodeRow | apps/mobile/app.config.js:55-73 | The inner loop |
| PngFilter.PaethIsNearest | apps/mobile/app.config.js:9-17 | The predictor is the nearest neighbour with left before up before upper left on ties |
| PngCrc.CrcTable | apps/mobile/app.config.js:80-84 | Every table entry is eight steps of the shift register |
| PngCrc.Crc32 | apps/mobile/app.config.js:86-90 | The table-driven loop computes the bit-at-a-time checksum |
| PngCrc.ShiftLinear | apps/mobile/app.config.js:80-84 | The register step is linear over exclusive or |
| PngCrc.ByteStep | apps/mobile/app.config.js:86-90 | Eight single-bit steps are one table look-up |
| PngCrc.IendChecksum | apps/mobile/app.config.js:80-90 | The definition gives the well-known checksum of IEND |
| PngCrcDetection.BurstsAreDetected | apps/mobile/app.config.js:80-90 | Messages that differ inside at most four consecutive bytes have different checksums |
| PngContainer.DecodeRgbaPng | apps/mobile/app.config.js:19-78 | The decoder, errors included, equals Decode; its chunk loop ends because the rest of the file shrinks |
| PngRoundTrip.ParsesWhatIsPrinted | apps/mobile/app.config.js:28-45 | Parsing any printed list of chunks reads that list, up to IEND when there is one |
| PngRoundTrip.WrittenImageIsRead | apps/mobile/app.config.js:19-78 | Every image, filtered row by row as one likes, compressed, cut into IDAT chunks as one likes among other chunks and followed by anything, decodes to its size and pixels |
| PngIcon.PngChunk | apps/mobile/app.config.js:92-100 | The buffer holds length, type, data and checksum |
| PngIcon.FillRaw | apps/mobile/app.config.js:132-138 | The loop puts a None filter byte before every row of the canvas |
| PngIcon.EncodeIcon | apps/mobile/app.config.js:131-154 | Signature, header, compressed rows and end chunk |
| PngIcon.IconIsRead | apps/mobile/app.config.js:131-154 | The icon written for any canvas decodes to that canvas |
| Arrears.CalculateOutstanding | src/Charkhoone.Domain/Payments/TenantArrearsPolicy.cs:39-92 | The calculation with all its refusals equals Outstanding |
| Arrears.ApplyInOrder | src/Charkhoone.Domain/Payments/TenantArrearsPolicy.cs:69-84 | The loop that applies the replenished amount oldest first |
| ArrearsTheorems.OutstandingIsASuffix | src/Charkhoone.Domain/Payments/TenantArrearsPolicy.cs:69-84 | What is left is the suffix whose running total was not reached, its first item reduced by exactly the difference |
| ArrearsTheorems.OldestIsPaidFirst | src/Charkhoone.Domain/Payments/TenantArrearsPolicy.cs:55-84 | Nothing is paid on an item while anything is owed for an earlier contract month, or for an earlier component or smaller reference of the same month |
| ArrearsTheorems.OutstandingDecides | src/Charkhoone.Domain/Payments/TenantArrearsPolicy.cs:39-92 | A calculation is accepted exactly for whole amounts, valid items, different references and a replenishment up to the sum, the last being its own error |
| ArrearsTheorems.OutstandingConserves | src/Charkhoone.Domain/Payments/TenantArrearsPolicy.cs:60-91 | Outstanding plus replenished is covered |
| ArrearsTheorems.OrderDoesNotMatter | src/Charkhoone.Domain/Payments/TenantArrearsPolicy.cs:48-58 | The answer, refusals included, depends on the items and not on their order |
| ArrearsTheorems.PaymentsCompose | src/Charkhoone.Domain/Payments/TenantArrearsPolicy.cs:39-92 | Paying a second amount off what the first left is paying both at once |
| ArrearsTheorems.FullPlanClearsEverything | src/Charkhoone.Domain/Payments/TenantArrearsPolicy.cs:94-124 | A plan is accepted if and only if it pays all outstanding principal and the return, and then nothing is left |
| ArrearsTheorems.DistinctCountMeansUnique | src/Charkhoone.Domain/Payments/TenantArrearsPolicy.cs:55-58 | The distinct count catches every repeated reference |
| Contribution.CalculateSettlement | src/Charkhoone.Domain/Payments/CancellationFinancialSettlement.cs:18-54 | The loop over accruals with its refusals equals Settle |
| Cancellation.SettleDecides | src/Charkhoone.Domain/Payments/CancellationFinancialSettlement.cs:18-54 | A cancellation is split if and only if the posted contribution is a whole non-negative amount, every accrual has the policy version and a whole non-negative payable amount, and these add up to no more than it; the lost-fund return is then their sum and the owner gets the rest |
| Cancellation.SettleRefusal | src/Charkhoone.Domain/Payments/CancellationFinancialSettlement.cs:22-42 | Otherwise the posted amount, then the first accrual that is not acceptable gives the error, its version before its amount |
| Cancellation.SettleIgnoresOrder | src/Charkhoone.Domain/Payments/CancellationFinancialSettlement.cs:27-54 | Accruals in another order are split alike |
| Cancellation.AccrualDecides | src/Charkhoone.Domain/Payments/LostFundReturn.cs:54-89 | A return accrues exactly at three per cent a month, on a whole amount, with no repayment before the withdrawal, the rate being checked first; it is then acceptable to a settlement |
| Cancellation.AccruesOverWholeDays | src/Charkhoone.Domain/Payments/LostFundReturn.cs:79-88 | Over whole days it is thirty-six per cent a year by actual days over 365, rounded down once |
| Contribution.ContributionIsConserved | src/Charkhoone.Domain/Finance/TenantContributionBalance.cs:16-50 | After any run of reservations, confirmed and failed coverages and full repayments posted balance plus arrears is the initial contribution, available plus reserved is posted, and a cancellation splits the posted part exactly |
| Contribution.ConfirmedCoverageIsPosted | src/Charkhoone.Infrastructure/Payments/EfTenantContributionCoverageService.cs:617-629 | In every such run a confirmed coverage is posted and takes from what was reserved: the branch for a posted balance below its amount is never taken |
| Contribution.FailedCoverageIsReleased | src/Charkhoone.Infrastructure/Payments/EfTenantContributionCoverageService.cs:570-589 | A failed coverage posts nothing and gives its amount back to what is available |
| Contribution.ReservedUpToTheContribution | src/Charkhoone.Infrastructure/Payments/EfTenantContributionCoverageService.cs:138-152 | A reservation is accepted exactly while coverage, reservations and it together stay within contribution and replenishments |
| Contribution.RepaymentRestoresBalance | src/Charkhoone.Domain/Finance/TenantContributionBalance.cs:31-49 | A full repayment restores the whole contribution whatever is reserved, and cannot be made twice |
| DepositConversion.RoundingKeepsTheRial | src/Charkhoone.Domain/Finance/FullDepositCalculator.cs:7-14 | Decimal rounding never moves the deposit across a rial, below 10^26 rials |
| DepositConversion.CeilingKeepsTheRial | src/Charkhoone.Domain/Finance/CreditAllocationCalculator.cs:5-10 | Nor the loan ceiling |
| DepositConversion.RentRoundTrip | src/Charkhoone.Domain/Finance/FullDepositCalculator.cs:16-28 | Rent to deposit and back gives the rent when three divides it and one rial less otherwise |
| DepositConversion.DepositRoundTrip | src/Charkhoone.Domain/Finance/FullDepositCalculator.cs:16-28 | Deposit to rent and back loses between 0 and 33 rials, by an exact formula |
| LostFundReturn.WholeDaysAreExact | src/Charkhoone.Domain/Payments/LostFundReturn.cs:80-88 | Over whole days the decimal computation pays the exact floor |
| LostFundReturnExact.PaysExactUnlessShort | src/Charkhoone.Domain/Payments/LostFundReturn.cs:80-88 | Up to 10^12 rials and 10,000 days the decimal computation pays the exact floor, less one rial if and only if ShortByOne: the return is whole, the days were rounded down, and the loss outweighs the last rounding |
| LostFundReturnExact.OnlyWholeReturnsFallShort | src/Charkhoone.Domain/Payments/LostFundReturn.cs:80-88 | In particular it never pays more than the floor, and pays it whenever the return is not a whole number of rials |
| LostFundReturnExact.DivisibleTicksAreExact | src/Charkhoone.Domain/Payments/LostFundReturn.cs:80-88 | And it pays it whenever 27 divides the elapsed ticks |
| LostFundReturnAnyAmount.PaysAtLeastIff | src/Charkhoone.Domain/Payments/LostFundReturn.cs:80-88 | Up to 10^24 rials and 10,000 days the decimal computation reaches any given number of rials above or below the exact floor if and only if the shortfall of the interest, given by the rounding of the days and the remainder of the exact return, is within what the last rounding puts back |
| LostFundReturnAnyAmount.PaysByShortfall | src/Charkhoone.Domain/Payments/LostFundReturn.cs:80-88 | Up to 10^15 rials it pays the exact floor, one rial more or one rial less, decided by two such comparisons |
| LostFundReturn.OffByOneOnlyNextToAWholeRial | src/Charkhoone.Domain/Payments/LostFundReturn.cs:80-88 | And is off only within 1100 parts of 876 million million of a whole rial |
| LostFundReturnLoss.EightHoursPayOneRialLess | src/Charkhoone.Domain/Payments/LostFundReturn.cs:80-88 | 9125 rials times any power of ten up to 10^20, withdrawn for eight hours, are paid one rial short of the exact whole return |
| LostFundReturnLoss.LargeReturnFallsShort | src/Charkhoone.Domain/Payments/LostFundReturn.cs:80-88 | Beyond 5 * 10^12 rials a return that is not whole can be paid one rial short |
| LostFundReturnLoss.LargeReturnPaysOneMore | src/Charkhoone.Domain/Payments/LostFundReturn.cs:80-88 | A return one part below a whole rial is paid one rial more than the exact floor |
| LostFundReturn.SplittingNeverPaysMore | src/Charkhoone.Domain/Payments/LostFundReturn.cs:80-88 | In exact arithmetic two periods never cost more than one, and at most one rial less |
| LostFundReturn.EachFloorLosesLessThanARial | src/Charkhoone.Domain/Payments/LostFundReturn.cs:80-88 | Flooring k exposures loses less than k rials in all |
| Delinquency.CalculateCurrentStreak | src/Charkhoone.Domain/Payments/DelinquencySequence.cs:10-36 | The loop with its early return equals Streak |
| Delinquency.StreakDecides | src/Charkhoone.Domain/Payments/DelinquencySequence.cs:10-36 | The streak is the number of months before the latest paid one, or the whole history; an open month is refused exactly when no paid one comes first |
| Delinquency.ConsecutiveMissedMonths.RegisterClosedMonth | src/Charkhoone.Domain/Payments/MonthlyObligation.cs:24-37 | The tracker's fields after a month, or its refusal |
| Delinquency.TrackerIsTheFold | src/Charkhoone.Domain/Payments/MonthlyObligation.cs:24-37 | For every accepted history the tracker's count is the fold of the reversed history |
| Delinquency.LatchesAtTheFirstWindow | src/Charkhoone.Domain/Payments/MonthlyObligation.cs:24-37 | Months are refused exactly behind a window of three misses, and cancellation is required exactly at the first one |
| Delinquency.CoverageStaysAMiss | src/Charkhoone.Domain/Payments/DelinquencySequence.cs:3-7 | Replacing missed by covered months changes neither |
| Maturity.NormalMaturityService.PrepareAsync | src/Charkhoone.Infrastructure/Contracts/EfNormalMaturityService.cs:16-224 | The gate decides Gate, and only a prepared contract moves, along an edge of the lease table |
| Maturity.PreparedMeansMature | src/Charkhoone.Infrastructure/Contracts/EfNormalMaturityService.cs:56-171 | A contract is prepared if and only if the twelve months are all there, closed, paid or covered by a succeeded transfer, and nothing is unresolved |
| Maturity.GateDecides | src/Charkhoone.Infrastructure/Contracts/EfNormalMaturityService.cs:33-171 | And the answer otherwise: prepared already, not active, not mature as long as a month is missing, open or not over, and blocked only after that |
| Maturity.CountMeansAllTransferred | src/Charkhoone.Infrastructure/Contracts/EfNormalMaturityService.cs:115-136 | The distinct count matches exactly when every covered month has a succeeded transfer |
| Maturity.NumberedMeansAllMonths | src/Charkhoone.Infrastructure/Contracts/EfNormalMaturityService.cs:56-69 | Twelve ordered rows are numbered 1 to 12 exactly when no month is missing |

## Left out

- RentRoundTrip, DepositRoundTrip, RoundingKeepsTheRial: stated below 10^26 rials, where decimals still carry two places; larger amounts overflow or lose their fraction.
- BankAnswerIsLostIff, OnlyRefusalsThrow: a transaction is not promised to abort for an impossible amount only, since every text an adapter sends is saved as it came or trimmed, with no check of its length.
- AccruesOverWholeDays, WholeDaysAreExact: amount times days up to 10^23, where no decimal step rounds before the last.
- PaysExactUnlessShort: amounts up to 10^12 rials; LargeReturnFallsShort and LargeReturnPaysOneMore show that its condition does not carry over, PaysAtLeastIff has the one that does.
- AdvanceRefusesOnlyForTheTenant, RefusalHasAReason: no refusal for a contribution posted between two reads, since its foreign key makes the posting wait for the lease row.
- BankTurnComes, TenantTurnComes, LeaseTurnComes: each query by itself, with calls that run undisturbed to their end; what else happens between two passes may add, change and withdraw rows, but not put one ahead of the candidate in question. Ids within an application are its own.
- BankCallFunds, SelectedMeansFundable: for a call that finds the lease row free; otherwise it waits for the lease funding call in flight.
- Waiting for locks: a transaction is a step that happens once it has them; deadlocks are not modelled. A payment or settlement row that refers to the lease is added after activation only.
- SelectedMeansFundable, EveryCeilingLoanIsReachable: for answers that fit their columns; AnswerIsLostIff says what happens to the others.
- OutcomeIsUnique: for runs in which one id is handled by one worker at a time; OverlappingHandlingsDeliverTwice shows why.
- ContributionIsConserved: a reservation is asked for with valid, new items, as payment instructions and generated ids provide them; obligations, journals and the coverage adapter are not modelled.
- EncodeIcon: resampling and alpha blending in floating point, which produce the canvas it is given.
- DecodeRgbaPng: the memory limit of buffers.
- EF Core itself: a locked re-read returns the committed row, a transaction is atomic, and the change tracker is fresh in every transaction.
- Several applications at once: no modelled transaction reads or writes the rows of another application.
- Time stamps, attempt counters, audit rows and outbox payloads of the protocol, and, once they fit their columns, reason codes and provider names: written, never read by it.
- The idempotency keys of protocol rows and GUID generation: a row is identified by its application or allocation, a new id is not the empty one.
- Ledger accounts and the two lines of the balanced journal entry of a contribution: the entry is one row with its amount.
- The paid-adapter refusal of the eligibility service, decimal overflow and the Persian calendar's month lengths, which are a parameter.
- Texts the system makes itself: an adapter's own name, plan versions and bank names are taken to fit their columns. Of the driver and PostgreSQL the rules used are that U+0000 is refused, that only spaces may exceed a length and are cut off, that only UTC times are written, and that fractions of a microsecond are dropped.
- Bank loan plan publication: whether a version is published is an input of plan selection; versions are immutable.
- Audit rows of the notification consumer except the delivered one; the outbox row behind a review is counted, not routed.
- The payload parser and the recipient check of the consumer: a parameter and an input.
- The twin consumers for normal settlement and submitted applications, payment, coverage, replenishment, cancellation and settlement services, and everything a lease does after activation except the maturity gate.
- HTTP endpoints, authentication, rate limiting, telemetry, web and mobile user interfaces, deployment scripts.
