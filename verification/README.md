# Verified model of the immigration CRM's stateful core

A Dafny 4.11 model of the parts of the CRM whose rows must keep agreeing with one another, with
proofs about every run of them. Check it with `dafny verify dfyconfig.toml`.

What is modelled, component by component:

- **Billing.** `Money` and `Calendar` hold cent rounding, the split into installments and the due
  dates. `Ledger` is one invoice with its lines, payments and plans, and a transition for each
  billing service; `Effects` says what each leaves in the row, field by field, and when a staff
  reminder goes; `Plans` is the waterfall of payments over installments and its reminders over
  whole runs; `Books` is all invoices with the number sequence. `BillingService.Firm` is the
  services as they are written, on mutable tables, each proved to take exactly the ledger's
  transition, to leave those effects, and to refuse exactly when and for the reason the source does.
- **Payment links and provider records.** `Links` divides the balance between trust and
  operating; `Records` stores what a processor reports on top of `BillingService`.
- **Email reminders.** `Reminders` interleaves claims, reads, releases and sends of any number of
  workers with everything else that changes an installment.
- **The assistant.** `Conversation` is the protocol between staff, worker and model,
  `Assistant.Thread` the code that runs it, and `Claude` the translation of its prompts.
- **One-way mirrors.** `Appointments`, `Meetings` and `Storage` keep calendars, video meetings and
  document copies in step through link tables.
- **The second factor, translation batches, mail cursors.** `TwoFactor`, `DeepL`, `Mailbox`.

Money is whole cents, quantities are hundredths, and a line's amount is the exact product rounded
half away from zero. Each service is one atomic step, as its transaction makes it; only
`Reminders` interleaves finer. The clock, the provider's answers, whether an address can be
reached, whether a request goes through, the model's replies, the results of tools and which tools
the owner may use are parameters. One-time codes and recovery-code hashes are uninterpreted.

What the proofs found out about the code:

- A split of n installments can end in a zero or negative one. `Money.SplitThreshold` gives the
  exact largest total for which it does; n(n-1)/2 is that bound in round numbers, exact for even n.
  When the last one is negative, `Plans.AppliedTotalOfSmallPlan` says exactly when the total
  applied is off.
- A plan splits the balance but applies every payment ever made. `Plans.PlanAgainstBalance`: while
  it is in force it asks for too little by exactly the payments made before it.
- Making a plan does not synchronize its reminders. `Plans.NewPlanMatchesReminders`: they are right
  at once exactly when the balance splits into positive installments and earlier payments do not
  cover the first. `Plans.RemindersMatchOverRuns` says exactly when they are right later.
- Numbers clash when the year goes back, and only then: `Books.IssuingClashesExactly` gives the
  exact condition while the prefix stays, `Books.IssuingNeverClashes` covers changes of prefix. A
  year that clashed once stays closed (`Books.ClosedYearStaysClosed`), since the refusal takes the
  sequence back.
- A refund takes effect exactly when it comes after its payment was stored
  (`Records.RefundedExactly`); one that comes before is lost (`Records.EarlyRefundIsLost`). Amounts
  with cents do not survive a currency without them (`Records.UnitsRoundTrip`), and a link's payment
  then does not settle its account (`Records.CompletedLinkSettlesItsAccount`).
- Confirming a device does not look at whether it is confirmed already, so the same setup posted
  twice accepts a code twice. `TwoFactor.StepsIncreaseExactly` says exactly when accepted steps stay
  increasing.
- The lockout allows at most limit * (floor(span / cooloff) + 1) looks in a span, and bursts reach
  that number (`TwoFactor.GuessesAreBounded`, `TwoFactor.BurstsReachTheBound`).
- A second push of an open appointment may still change a calendar that carries, beside an event of
  its own, a stale one of the CRM's, and only such a calendar (`Appointments.SecondPushIsIdleExactly`).
- A pasted join link stands exactly when no meeting of the CRM is linked, or the one linked is on
  the wanted service and finished or up to date (`Meetings.LinkStandsExactly`); pasted over a
  meeting's own it can be cleared or replaced.
- An answer that breaks off between two saves leaves its prompt unpaired unless it had saved every
  tool message (`Conversation.InterruptedTurnIsPaired`).
- A storage run stops at its first failing document (`Storage.Connection.CopyPending`), which is
  also the oldest, so documents after it wait for it.
- Of more than MAIL_LIMIT waiting messages the oldest are passed over for good
  (`Mailbox.SyncFetchesNewest`, `Mailbox.PassedOverIsLost`), and a renumbered folder with nothing
  recent keeps a cursor that hides new mail (`Mailbox.RenumberedCursorHidesMail`).

## Model

| member | source | states |
|---|---|---|
| `Ledger.LedgerFacts` | crm/billing/models.py:92-159 | In every state reached from a new draft: a number exists exactly when it is not a draft; issued, partially paid and paid are exactly nothing, something and all of the subtotal paid; the balance is the rest, and nothing when void; drafts and void invoices have no live payment and no plan in force; at most one plan is in force and it is completed exactly when the invoice is paid; a void invoice holds no time entry |
| `Ledger.EveryRunIsConsistent` | crm/billing/services.py:113-197 | The ledger invariant holds after any run of issuing, paying, voiding, planning and canceling from any consistent row |
| `Ledger.StepKeepsConsistent` | crm/billing/services.py:113-346 | Each single service keeps the ledger invariant, whether it is allowed or refused |
| `Ledger.PaymentsAreKept` | crm/billing/services.py:165-177 | No run deletes, changes or revives a payment: each is as it was or the same payment voided |
| `Ledger.IssuedTotalIsFixed` | crm/billing/services.py:67-69 | Once an invoice is not a draft no run changes what it bills, freed time entries included |
| `Ledger.PaidAfterVoid` | crm/billing/models.py:144-147 | Voiding one live payment lowers the amount paid by exactly its amount |
| `Ledger.InForce` | crm/billing/models.py:155-158 | The plan in force is the newest that is not canceled, and there is none exactly when all are canceled |
| `Ledger.SubtotalAdds` | crm/billing/models.py:135-137 | Nothing is billed without lines, and lines bill what their quantities times prices round to, added up |
| `Ledger.RemovingTakesOff` | crm/billing/views.py:185-193 | A removed line comes off what is billed, by its rounded amount |
| `Plans.Schedule` | crm/billing/models.py:318-335 | In a plan in which only the last installment may be negative, as in every plan made, each row shows the part of the payments beyond the earlier installments, up to its amount, and is paid, overdue, partly paid or not started by that and its date alone |
| `Plans.NextDue` | crm/billing/models.py:337-338 | The first unpaid installment, every earlier one being paid; none exactly when all rows are paid |
| `Plans.WaterfallConserves` | crm/billing/models.py:321-325 | For any amounts, negative ones included, what is applied and what is left make up what was paid |
| `Plans.LeftIsPaidLessPlanned` | crm/billing/models.py:321-325 | With no negative installment, after n of them what is left is the amount paid less everything planned so far, never below zero |
| `Plans.RowPaidMeansPlannedIsPaid` | crm/billing/models.py:324-327 | With no negative installment, a row is paid exactly when it asks for nothing or everything planned up to and including it has been paid |
| `Plans.AppliedTotalIsCapped` | crm/billing/models.py:318-335 | With no negative installment the total applied is min(amount paid, plan total), and what the plan still asks for is the rest |
| `Plans.AllRowsPaidMeansPlanIsPaid` | crm/billing/models.py:318-335 | With positive installments all rows are paid exactly when the amount paid covers the plan total |
| `Plans.NewPlanAsksForBalance` | crm/billing/services.py:269-290 | A new plan asks for exactly the balance, and its installments are all positive exactly when the balance can be split |
| `Plans.AppliedTotalOfSmallPlan` | crm/billing/services.py:223-226 | For a balance too small to split, the applied total is still min(paid, total) exactly when the last installment is not negative or the equal ones are all paid |
| `Plans.SettlingMatchesReminders` | crm/billing/services.py:300-321 | Synchronizing loses no reminder, and makes each one completed exactly when its row is paid, whatever it said before |
| `Plans.PaymentIsTakenOff` | crm/billing/services.py:143-162 | A payment lowers the balance by exactly its amount, the invoice is paid exactly when nothing is left, and the reminders match |
| `Plans.VoidedPaymentIsOwedAgain` | crm/billing/services.py:165-177 | A voided payment raises the balance by exactly its amount, the invoice is open again, and the reminders match |
| `Plans.NewPlanMatchesReminders` | crm/billing/services.py:238-297 | A new plan's reminders match its rows exactly when the balance splits into positive installments and earlier payments do not already cover the first; otherwise a row that counts as paid has an open reminder until the next payment or void |
| `Plans.OneCentPlanIsOff` | crm/billing/services.py:223-290 | One cent in two installments with nothing paid: the second row counts as paid while its reminder is open |
| `Plans.RemindersMatchOverRuns` | crm/billing/services.py:300-321 | Over any run, every surviving reminder of the plan in force is completed exactly when its row is paid, if and only if a payment or void came since that plan was made or it was made right |
| `Plans.RunKeepsPlan` | crm/billing/services.py:336-346 | No run changes a plan's amounts or dates, and a canceled plan is never touched again |
| `Plans.CanceledPlansAreQuiet` | crm/billing/services.py:336-346 | Over any run no canceled plan has an open reminder, whether it was canceled alone or with its invoice |
| `Plans.MakingLeavesFreshPlan` | crm/billing/services.py:238-297 | Making a plan leaves the payments alone and, exactly when the balance can be split, a plan of positive installments that asks for the whole balance |
| `Plans.PlanTracksBalance` | crm/billing/models.py:318-335 | While a plan of positive installments made for the whole balance is in force, whatever is paid or voided, it asks for the balance less what had been paid before it was made, and all its rows are paid exactly when the rest is that; with nothing paid before, plan and balance agree and all rows are paid exactly when the invoice is |
| `Plans.PlanAgainstBalance` | crm/billing/services.py:270-290 | The exact gap between plan and balance over any later run, for a plan made at any moment of a balance that can be split: the payments made before it |
| `Effects.RemindersStay` | crm/billing/services.py:300-346 | Over any run a staff reminder is still there exactly unless its plan was canceled or its invoice voided while it was open |
| `Effects.StepKeepsReminder` | crm/billing/services.py:300-346 | A step takes a reminder away exactly when it is open and its plan ends, and never brings one back |
| `Effects.PayingTakes` | crm/billing/services.py:143-162 | What a payment leaves, field by field: one payment more, the status by what is owed, every reminder still there and completed exactly when the payments reach its installment |
| `Effects.VoidingVoids` | crm/billing/services.py:165-177 | What a voided payment leaves, field by field: reminders that were completed are open again exactly when what is left paid no longer reaches them |
| `Effects.VoidingInvoiceVoids` | crm/billing/services.py:180-197 | What a voided invoice leaves: lines without time entries that bill what they did, payments as they were, and an ended plan |
| `Effects.CancelingCancels` | crm/billing/services.py:336-346 | An ended plan has lost exactly its open reminders |
| `Effects.NewPlanIsFor` | crm/billing/services.py:268-290 | A new plan is active, asks for the balance in equal parts but the last, and falls due on calendar dates counted from the first, with every reminder open |
| `Effects.PlanningMakes` | crm/billing/services.py:238-297 | Making a plan adds that one plan and changes nothing else |
| `Effects.CoveredIsPaid` | crm/billing/models.py:318-335 | A row is paid exactly when it asks for nothing or the payments cover everything planned up to and including it, whatever the last installment came to |
| `Money.RoundHalfUp` | crm/billing/models.py:16-17 | The nearest cent, and of two nearest the one away from zero |
| `Money.SplitSumsToTotal` | crm/billing/services.py:223-226 | The installments sum to exactly what was split, for any total and count |
| `Money.SplitIsEven` | crm/billing/services.py:223-226 | All but the last are equal and the last is within count/2 cents of them, and of something owed it exceeds them by less than that |
| `Money.SplitPositiveExactly` | crm/billing/services.py:223-226 | Every installment is positive exactly when a condition on the total's quotient and remainder holds |
| `Money.SplitThreshold` | crm/billing/services.py:223-226 | The exact bound: the largest total that cannot be split into positive installments fails, and every larger total works |
| `Money.SplitRoundBound` | crm/billing/services.py:223-226 | Every total above n(n-1)/2 cents splits into positive installments |
| `Calendar.AddMonthsIsExact` | crm/billing/services.py:209-213 | Exactly that many calendar months later, on the same day, or on the last day of a shorter month |
| `Calendar.MonthLengths` | crm/billing/services.py:209-213 | The lengths of the twelve months of a year |
| `Calendar.DateIsExact` | crm/billing/services.py:216-220 | The nth due date is n months, or 14n or 7n days, after the first, so a clamp in a short month never shifts a later date |
| `Calendar.DatesAreIncreasing` | crm/billing/services.py:216-220 | Every schedule is strictly increasing valid dates starting on the first due date |
| `Calendar.AddDaysIsExact` | crm/billing/services.py:219-220 | Adding days moves the day number by exactly that many and stays on the calendar |
| `Calendar.OrdinalOrders` | crm/billing/services.py:219-220 | Day numbers order dates exactly as year, month and day do |
| `Calendar.SteppingAgreesWhenNotCut` | crm/billing/services.py:209-218 | Stepping month by month from a clamped date gives the same dates exactly when the clamp did not cut the day further than the target month does |
| `Books.EveryHistoryIsSound` | crm/billing/services.py:76-203 | Over any history of the whole firm: rows are consistent, numbers are unique and without gaps in their year, a provider payment is recorded once, and a time entry is on one line at most |
| `Books.EventKeepsNumbers` | crm/billing/models.py:63-74 | Each number is held by one invoice and is the first of its year or follows another of that year |
| `Books.EventKeepsSources` | crm/billing/models.py:254-260 | No two payments share a provider's ID |
| `Books.EventKeepsTime` | crm/billing/services.py:76-105 | A time entry is billed on at most one line, whatever is added, removed or voided |
| `Books.SequenceLeadsOverHistory` | crm/billing/models.py:68-74 | While the year does not go back no number is ahead of the sequence |
| `Books.IssuingNeverClashes` | crm/billing/services.py:113-126 | While the year does not go back, a draft can be issued exactly when it has lines with a positive total: its number is never taken |
| `Books.IssuingClashesExactly` | crm/billing/models.py:63-74 | Wherever the year went in the meantime, while the prefix stays a draft with something to bill can be issued exactly when its year is the one of the sequence or has no number yet |
| `Books.ClosedYearStaysClosed` | crm/billing/models.py:68-74 | Once an invoice was numbered in another year, a year that has numbers can never be issued in again: each refusal takes the sequence back |
| `Books.YearGoneBackClashes` | crm/billing/services.py:113-126 | The run in which it happens: a later year, an earlier one, and the later one again |
| `Books.VoidingFreesTime` | crm/billing/services.py:180-197 | After voiding an invoice none of its time is billed anywhere |
| `BillingService.BilledIncrements` | crm/billing/services.py:46-50 | The fewest increments, at least one, that cover the time but for a billionth of an increment |
| `BillingService.BillableHours` | crm/billing/services.py:46-50 | The nearest hundredth of an hour to the time in whole increments |
| `BillingService.Firm.AddTimeToInvoice` | crm/billing/services.py:76-105 | Each entry becomes one line of its rounded hours at its staff member's rate or the firm's, all or none; refused for a non-draft, else for a missing rate, else exactly when an entry is on some line of some invoice already or is given twice |
| `BillingService.Firm.AddLine` | crm/billing/services.py:108-110 | A line joins a draft and raises its subtotal by its rounded amount; a non-draft is refused unchanged |
| `BillingService.Firm.CreateInvoice` | crm/billing/views.py:95-110 | A new invoice is an empty draft, and nothing else changes |
| `BillingService.Firm.DeleteDraft` | crm/billing/services.py:200-203 | Only drafts are deleted, and nothing else changes |
| `BillingService.Firm.IssueInvoice` | crm/billing/services.py:113-126 | A draft with a positive total gets the next number of the year and is issued, no other row touched; otherwise the reason why not, and nothing changes, the sequence included |
| `BillingService.Firm.RefreshStatus` | crm/billing/services.py:129-140 | The stored status becomes the function of live payments and subtotal; drafts and void invoices are left alone |
| `BillingService.Firm.SyncPlan` | crm/billing/services.py:300-321 | No reminder is lost and each is completed exactly when the payments reach its installment; the plan in force is completed exactly when the invoice is paid, and canceled plans are left alone |
| `BillingService.Firm.RecordPayment` | crm/billing/services.py:143-162 | Each refusal with its exact reason; otherwise the rounded amount is one payment more, the balance and status follow, every reminder stays and is completed exactly when the payments reach its installment, and no other row is touched |
| `BillingService.Firm.VoidPayment` | crm/billing/services.py:165-177 | The amount is owed again in full and the invoice is open; every reminder stays, completed exactly when what is left paid reaches its installment; the refusals with their reasons |
| `BillingService.Firm.VoidInvoice` | crm/billing/services.py:180-197 | The invoice is void with its lines as billed but no time entry on them, its plan is ended, and all its time can be billed again; the refusals with their reasons |
| `BillingService.Firm.MakeInstallments` | crm/billing/services.py:268-290 | Equal amounts but for the last, which make the balance; the first falls due on the date given and the nth so many months, fortnights or weeks of the calendar after it, later than the one before; every reminder is open |
| `BillingService.Firm.CreatePlan` | crm/billing/services.py:238-297 | Each refusal with its exact reason; otherwise one active plan more, with the email setting asked for: installments that make the balance, on strictly increasing calendar dates counted from the first, each with an open reminder |
| `BillingService.Firm.CancelPlan` | crm/billing/services.py:336-346 | The plan is canceled, its open reminders are gone, its completed ones, amounts and dates stay, and no plan is in force |
| `BillingService.Firm.SetEmailReminders` | crm/billing/services.py:324-333 | Only an active plan's reminders change, and turning them on needs an address that can be reached; nothing else changes |
| `Links.AmountsDue` | crm/billing/links.py:48-60 | Trust is asked for the advances not paid into it and operating for the earned fees not paid into it, each up to the balance and only when positive; a draft, paid or void invoice asks for nothing |
| `Links.LinksNeeded` | crm/billing/links.py:63-69 | Exactly the amounts owed that no link already asks for to the cent |
| `Links.AskedByFunds` | crm/billing/links.py:28-60 | Trust asks for advances and operating for earned fees, less what was paid into each, up to the balance and never less than nothing |
| `Links.OneKindOfFunds` | crm/billing/links.py:28-60 | Before anything is paid, an invoice of advances alone asks for all of it in trust, and one of earned fees for all of it in operating |
| `Links.CreateLinks` | crm/billing/links.py:93-143 | Existing links stay; a new one is added exactly for each needed account that is served and whose request went through; refused exactly when nothing is owed, when links for all of it exist, or when none of the rest is served |
| `Links.SendLinks` | crm/billing/links.py:112-143 | The loop over accounts adds a link for each served account whose request went through, and no other |
| `Links.AskedIsBalance` | crm/billing/links.py:48-60 | For every open invoice the two accounts' amounts sum to exactly the balance, whatever account earlier payments went to and even with negative lines |
| `Links.PayingOneLink` | crm/billing/links.py:48-60 | Paying one account's amount is accepted, brings it to zero, leaves the other account's amount, and pays the invoice exactly when the other owes nothing |
| `Links.PayingBothLinks` | crm/billing/links.py:48-60 | Paying both, in either order, is accepted at every step and ends in paid |
| `Records.UnitsRoundTrip` | connectors/stripe/__init__.py:69-76 | An amount survives the processor's units exactly when the currency has cents or the amount is whole |
| `Records.UnitsAreNearest` | connectors/stripe/__init__.py:69-76 | The processor is asked for the cents, or for the nearest whole unit where a currency has none |
| `Records.DepositIsClear` | crm/billing/records.py:35-39 | A payment goes where the provider says and otherwise into operating; it is unclear exactly when the provider did not say and some line is an advance |
| `Records.StoringKeeps` | crm/billing/records.py:42-93 | Storing a record takes one payment, voids one payment, or changes nothing, field by field in terms of the rows before |
| `Records.StoreOne` | crm/billing/records.py:42-93 | A completed payment not stored yet is taken on the invoice it names, into the account given or into operating when nothing belongs in trust; a refund voids its live payment; nothing else changes; and exactly the note that is due is left: a partial refund of a live payment, no invoice named, no account known, or a payment refused |
| `Records.OnePaymentPerProviderId` | crm/billing/records.py:42-46 | Over any sequence of records every provider ID has at most one payment |
| `Records.VoidStaysVoid` | crm/billing/records.py:47-50 | A void payment stays the same void payment whatever is stored later |
| `Records.RefundedExactly` | crm/billing/records.py:43-62 | A stored payment is void after any later records exactly when it was before or one of those records refunds it |
| `Records.StoringTwiceIsStoringOnce` | crm/billing/records.py:42-93 | Storing the same record twice in a row is storing it once |
| `Records.EarlyRefundIsLost` | crm/billing/records.py:47-62 | The input that fails: a refund stored before its payment changes nothing, and the payment stored after it stays live |
| `Records.CompletedLinkSettlesItsAccount` | connectors/stripe/__init__.py:327-361 | The completed record of a current link settles that account and leaves the other's due exactly when the currency can express the amount |
| `Reminders.OneClaimOverRuns` | crm/billing/reminders.py:28-57 | Under any interleaving of ticks, payments, settings changes, reads, releases and sends, the claim mark stands for exactly one unfinished task or one attempt |
| `Reminders.NeverEmailedTwice` | crm/billing/reminders.py:28-124 | No installment's email is tried twice, and a tried one is marked with nothing pending |
| `Reminders.AttemptIsFinal` | crm/billing/reminders.py:50-56 | After an attempt no later event claims, queues, releases or tries that installment again |
| `Reminders.TickMarksReady` | crm/billing/reminders.py:34-49 | A tick marks exactly the installments of an active plan with email reminders, due from today on within thirty days, their moment come and unpaid, besides those already marked |
| `Reminders.Queue.QueueDue` | crm/billing/reminders.py:28-57 | With a sender, exactly the installments that are ready are marked besides those already marked, one task is queued for each newly marked, and they are counted; without one nothing changes |
| `Reminders.Queue.SendReminder` | crm/billing/reminders.py:89-124 | A task tries the email exactly when the installment is still due, and otherwise gives its claim back; nothing else changes |
| `Conversation.EveryRunKeepsInv` | crm/ai/assistant.py:247-315 | Over any run: calls are answered in order and at once, the status says exactly whether a proposal waits, and only proposals of change tools wait |
| `Conversation.ChangesAreConfirmations` | crm/ai/assistant.py:304-315 | Of all the tools run over any run, by answers and by decisions, those that make changes are exactly the confirmed proposals whose tool was offered, each once, for its own message and in that order |
| `Conversation.InterruptedTurnIsPaired` | crm/ai/assistant.py:265-293 | An answer that stops between two saves leaves every call answered exactly when it stopped after the last tool message |
| `Conversation.DecisionsStand` | crm/ai/feature_views.py:203-219 | A decided proposal keeps its decision and result in every later run |
| `Conversation.PromptsAreComplete` | crm/ai/assistant.py:247-301 | The model is asked only with every call answered and nothing waiting, at most eight times an answer, and a finished answer leaves the conversation not working |
| `Conversation.PairedAppend` | crm/ai/assistant.py:280-293 | After whole turns, messages are whole turns exactly when they are on their own |
| `Conversation.RoundsKeepInv` | crm/ai/assistant.py:251-301 | An answer's rounds keep the invariant |
| `Conversation.RoundsEnd` | crm/ai/assistant.py:251-301 | An answer ends, makes no change, and asks no more often than it may |
| `Conversation.RoundsAnswer` | crm/ai/assistant.py:247-301 | When an answer stops, from the replies alone: the number of requests, what each prompt holds, the final messages and the status |
| `Conversation.AskedIsOnce` | crm/ai/assistant.py:251-296 | What one request leaves: its turn after what was there, a waiting tool message for each proposal and an answered one for each look-up, and whether to go on |
| `Conversation.LookUpsAreRun` | crm/ai/assistant.py:279-293 | A tool is run for a reply exactly for its calls of offered tools that change nothing and are not the draft tool, each for its own message |
| `Conversation.LookUpsAreInOrder` | crm/ai/assistant.py:279-293 | Those tools are run in the order of the calls, each once |
| `Assistant.Thread.TakeMessage` | crm/ai/feature_views.py:172-200 | A message is taken exactly when no fresh answer runs, nothing waits, there is room and the form is good; it is added with one answer task, and a refusal changes nothing |
| `Assistant.Thread.DecideOne` | crm/ai/assistant.py:304-315 | The message is stored with the decision and the result; a confirmed change is made once with its own tool if that is offered; the answer goes on, with one task more, exactly when nothing waits |
| `Assistant.Thread.AnswerCalls` | crm/ai/assistant.py:279-293 | One tool message a call, in order; proposals wait and run nothing, look-ups run their tool and carry its result |
| `Assistant.Thread.Execute` | crm/ai/assistant.py:195-210 | A tool is run when it is offered to the owner and is not the draft tool, and otherwise nothing is |
| `Assistant.Thread.AskOnce` | crm/ai/assistant.py:251-296 | One request is made with everything so far, and its turn stored with a tool message a call; the conversation goes on after look-ups, waits after a proposal, and is ready after an answer or a failure; an error stores nothing |
| `Assistant.Thread.Respond` | crm/ai/assistant.py:247-301 | The model is asked again after each round of look-ups, with the turns before in the prompt, until the first reply that has no calls, proposes or fails, or eight times; the requests, prompts, messages and status are stated from the replies alone |
| `Assistant.Thread.RunTask` | crm/ai/jobs.py:123-136 | A task answers a working conversation, as stated from the replies alone, and leaves any other alone; an unexpected error ends the answer |
| `Claude.MergeTurns` | connectors/anthropic/__init__.py:88-102 | The in-place merge keeps the sequence of content and leaves no two results messages in a row |
| `Claude.MergingKeepsContent` | connectors/anthropic/__init__.py:88-102 | Merging neither loses, adds nor reorders content, whatever parts it is read in |
| `Claude.MergingKeepsApart` | connectors/anthropic/__init__.py:88-102 | After merging no two results messages are left in a row |
| `Claude.TurnIsCarried` | connectors/anthropic/__init__.py:63-85 | Whether a turn goes back as the provider's copy or from stored text, it says the stored text and calls, with their names and arguments |
| `Claude.OwnCopyGoesBack` | connectors/anthropic/__init__.py:63-85 | A turn goes back to the provider it came from block by block as it was written; any other turn is sent as its text and its calls and nothing else |
| `Claude.PromptIsCarried` | connectors/anthropic/__init__.py:63-85 | A translated prompt says exactly what is stored: each text, call and result, in order |
| `Claude.AnswersMerge` | connectors/anthropic/__init__.py:88-102 | The results of one turn become one user message with a result for each call, in order |
| `Claude.TranslationIsPaired` | connectors/anthropic/__init__.py:63-102 | Any paired conversation translates to messages in which each tool_use is answered in the very next message and nothing else is |
| `Claude.AnswerComesBack` | connectors/anthropic/__init__.py:208-234 | Claude's answer read, stored and sent again is as it was while on Anthropic, and says the same text and calls from any other connection |
| `Claude.PromptsReachClaudePaired` | crm/ai/assistant.py:213-238 | Every prompt of every run, changes of connection included, reaches Anthropic paired and merged, and says exactly what is stored |
| `Appointments.Mirror.Push` | crm/appointments.py:241-278 | Only calendars of the assigned staff member have the CRM's event, and none before there is a time and a staff member; each of theirs shows an open appointment as it is or has an event of its own, and is left as it was for a finished one; nobody else's event or link is touched |
| `Appointments.Mirror.RemoveUnwanted` | crm/appointments.py:252-261 | The loop removes exactly the CRM's links and events on unwanted calendars and remembers one link for each wanted one |
| `Appointments.Mirror.PutOnWanted` | crm/appointments.py:265-278 | The loop covers every wanted calendar and touches no other |
| `Appointments.Mirror.Live` | crm/appointments.py:241-321 | Over any run of edits, pushes, removals, deletions and changes at the calendars: the CRM's live events are exactly those linked or queued for removal less those erased there, at most one a calendar, and no event the CRM did not make is written or removed |
| `Appointments.SecondPushIsIdleExactly` | crm/appointments.py:241-278 | A second push never changes anything exactly when the appointment is finished or no wanted calendar has, beside an event of its own, one of the CRM's that does not show it as it is |
| `Appointments.MixedCalendarExample` | crm/appointments.py:254-268 | Such a calendar, and two pushes of which the second changes something |
| `Appointments.EveryPushPushes` | crm/appointments.py:241-278 | Whichever links are looked at and in whatever order, a push does what a push promises |
| `Appointments.PushIsDone` | crm/appointments.py:241-278 | Both steps of a push together do what a push promises |
| `Appointments.PushMirrors` | crm/appointments.py:241-278 | What a push promises follows for any owners and any appointment, said without the set of wanted calendars |
| `Appointments.PuttingOnAgain` | crm/appointments.py:265-278 | On a calendar already covered, with no stale event of the CRM beside its own, putting the appointment on again changes nothing |
| `Appointments.Mirror.Delete` | crm/appointments.py:309-321 | Deleting forgets every link and queues exactly the CRM's events for removal |
| `Appointments.Mirror.RunRemoval` | crm/appointments.py:281-299 | A queued removal takes its event away; after the last one of a deleted appointment no event of the CRM is left |
| `Appointments.Mirror.Save` | crm/appointments.py:302-306 | An edit queues one push exactly when the appointment is on a calendar or its staff member has one |
| `Meetings.Meeting.Push` | crm/meetings.py:92-133 | The meeting is on the first service its staff member connected and, after an accepted save, made from the title and time; a save is sent exactly when the meeting was made from another title or time, or there is none and no pasted link; exactly what becomes of the join link |
| `Meetings.LinkStandsExactly` | crm/meetings.py:101-133 | A push leaves a stored link alone whatever the service answers exactly when it was pasted with no meeting linked, or the meeting linked is on the wanted service and finished or up to date |
| `Meetings.PushedSaid` | crm/meetings.py:92-133 | When a save is sent and what becomes of the join link, from the services, the appointment and its meeting alone |
| `Meetings.PastedOverIsCleared` | crm/meetings.py:101-108 | A link pasted over that of a meeting on a service no longer wanted is cleared |
| `Meetings.PastedOverIsReplaced` | crm/meetings.py:129-131 | A link pasted over that of the wanted meeting is replaced by the next accepted save after a title or time change |
| `Meetings.Meeting.KeepOne` | crm/meetings.py:101-108 | The loop keeps the link on the wanted service and removes every other meeting with its join link |
| `Meetings.Meeting.Live` | crm/meetings.py:69-133 | Over any run a pasted link is never replaced and nothing is sent for it; and once up to date nothing is sent again while title, time and staff member stay |
| `Storage.Connection.MatterFolder` | crm/document_storage.py:92-107 | The folder linked to the matter, under its current name, or a refusal that changes nothing; one under its current name is left alone, one still there is kept under its ID, and other matters are untouched |
| `Storage.Connection.SaveFolder` | crm/document_storage.py:97-107 | A folder that is gone is made again under a new ID, and the link to the old one goes |
| `Storage.Connection.Rename` | crm/document_storage.py:234-241 | A renaming task is queued exactly when the linked folder has another name |
| `Storage.Connection.RenameFolder` | crm/document_storage.py:149-160 | An accepted renaming leaves the folder linked under the current name; without a folder, or refused, nothing happens |
| `Storage.Connection.Live` | crm/document_storage.py:92-160 | Over any run of new matters and documents, renamings, copies and folders lost at the provider: one save and one copy a document, one folder a matter, and names that are current unless a renaming has not been saved yet |
| `Storage.Connection.Copy` | crm/document_storage.py:110-134 | A document is saved at the provider at most once and linked exactly when it was; a failure leaves it for later |
| `Storage.Connection.Pending` | crm/document_storage.py:178-191 | The oldest documents without a copy, up to the limit, each in its place by how many older ones wait |
| `Storage.PendingIsOldest` | crm/document_storage.py:178-191 | Each of the oldest waiting documents is in the place that the number of older waiting ones gives it |
| `Storage.Connection.CopyPending` | crm/document_storage.py:194-210 | A run copies the oldest waiting documents, at most a batch of them, up to the first that does not work, fails exactly then, and copies no others |
| `Storage.WholeRun` | crm/document_storage.py:194-210 | When every document works a run takes its whole batch |
| `Storage.RunTakesOneBatch` | crm/document_storage.py:178-210 | A fully successful run takes exactly the oldest batch off what is pending |
| `Storage.RunsUntilEmpty` | crm/document_storage.py:178-210 | So many fully successful runs empty the queue exactly when they are at least ceil(n/25) |
| `TwoFactor.MatchCounter` | crm/two_factor.py:52-64 | The earliest time step within the drift that the code belongs to and that is later than the last one used, found exactly when there is one |
| `TwoFactor.FreshIsNearNow` | crm/two_factor.py:52-64 | A code is fresh exactly when it is six digits and the code of some moment at most thirty seconds from now whose half minute is past the last one used |
| `TwoFactor.Device.Confirm` | crm/two_factor.py:135-145 | A code confirms the device, again if it already was, exactly when it belongs to a step near now; accepted steps then stay increasing exactly when that step is after the last one used |
| `TwoFactor.Device.Check` | crm/two_factor.py:148-190 | Which of the five outcomes it is, from the rows before the call: no device, locked, a fresh code, an unused recovery code, or a wrong code that is counted and locks the device at the limit; and exactly what each leaves behind |
| `TwoFactor.StepsIncreaseExactly` | crm/two_factor.py:135-190 | For any clock readings the accepted steps of a run are strictly increasing exactly when no setup of a confirmed device matched a step already passed |
| `TwoFactor.SetupTwiceReplays` | crm/two_factor.py:135-145 | The run that fails: the same setup posted twice accepts one step twice, and the recovery codes shown first are void |
| `TwoFactor.EveryRunIsSound` | crm/two_factor.py:120-190 | Over any run each recovery code is spent at most once, and unused and spent codes since the last replacement are ten |
| `TwoFactor.Device.ReplaceRecoveryCodes` | crm/two_factor.py:120-128 | All earlier recovery codes are gone and ten new ones are unused |
| `TwoFactor.GuessesAreBounded` | crm/two_factor.py:171-179 | With a clock that does not go back and no accepted code, the wrong codes looked at in any span are at most limit * (floor(span / cooloff) + 1), and the counter stays below the limit |
| `TwoFactor.BurstsReachTheBound` | crm/two_factor.py:171-179 | That bound is reached for every limit, cooloff and whole number of cooloffs, so it cannot be lowered |
| `DeepL.Batches` | connectors/deepl/__init__.py:54-65 | The batches are the texts in order, each within the limits or a single text, closed only when full or when the next text would not fit, and no other such division has fewer |
| `DeepL.Lower` | connectors/deepl/__init__.py:129-152 | The same letters with capitals made small |
| `DeepL.GreedyStaysAhead` | connectors/deepl/__init__.py:54-65 | Greedy batches of a suffix are never more than any division of a longer suffix |
| `DeepL.Perform` | connectors/deepl/__init__.py:129-152 | One translation a text, in order, with the detected language in small letters, or a refusal when some answer has not one a text |
| `Mailbox.SearchAfter` | connectors/imap_smtp/__init__.py:214-217 | Exactly the messages newer than the last one, in order |
| `Mailbox.SyncFolder` | connectors/imap_smtp/__init__.py:388-403 | With a stored cursor of the same UIDVALIDITY and a last UID, the newest messages after it up to the limit, and otherwise the newest of a recent stretch; the cursor ends on the last one fetched, or stays where it was |
| `Mailbox.NeverFetchedTwice` | connectors/imap_smtp/__init__.py:377-404 | Over any run under one UIDVALIDITY the cursor never goes back and no message is fetched twice |
| `Mailbox.SyncFetchesNewest` | connectors/imap_smtp/__init__.py:394-403 | A sync fetches a waiting message exactly when fewer than the limit are newer, and moves the cursor past it either way |
| `Mailbox.FetchedExactly` | connectors/imap_smtp/__init__.py:377-404 | Over any run a message is fetched exactly if at some sync it waits with fewer than the limit newer ones |
| `Mailbox.PassedOverIsLost` | connectors/imap_smtp/__init__.py:394-403 | A message behind the cursor that was not fetched is never fetched |
| `Mailbox.EveryArrivalIsFetched` | connectors/imap_smtp/__init__.py:377-404 | While no sync finds more than the limit waiting, every message that was in the folder at some sync of the run was fetched, deleted since or not |
| `Mailbox.RenumberedCursorHidesMail` | connectors/imap_smtp/__init__.py:389-403 | After a renumbering with nothing recent the old cursor is kept: the next message is fetched exactly when its new number is already past it, and those up to it never are |

## Left out

- Concurrent voids: `void_invoice` and `void_payment` take no row lock, so the ledger's results are for serial steps.
- Text and display: titles, descriptions, void reasons, prompts, email bodies, audit entries (except which note a record leaves), and an invoice number's printed form; numbers are compared by prefix, year and value.
- Issue, due and received dates of invoices and payments, and overdue invoices: nothing here depends on them.
- The look-up of an invoice by the reference on a provider's record: which invoice it names, if any, is given.
- Decimal's 28-digit context, column widths, and dates past the year 9999.
- BillingService.BilledIncrements: the source divides floating-point minutes; here the time, the increment and the billionth are exact.
- BillingService.Firm.AddTimeToInvoice: which time entries are offered for billing is not modelled, only what is done with those chosen.
- Books.IssuingClashesExactly: firms that change their number prefix while the year also goes back; their next number is looked up among all numbers, as the database does.
- Staff editing or deleting a plan's reminder tasks by hand, and changing a plan's reminder days.
- Reminders.Queue.SendReminder: an installment deleted while its task is queued, and what is written on the staff reminder when an email fails, are not modelled.
- Conversation.EveryRunKeepsInv: runs take a failure before a turn is saved, not one between two of its saves, and an answer still running after fifteen minutes while a new message is taken is not modelled; requests and answers take turns.
- What tools do: a tool's result is given, and so are the tools offered to the owner.
- AISettings, feature switches and forms, except that a message or decision may be refused because of them.
- Appointments.Mirror.Push: sends are taken to succeed and calendars to stay connected with the same owner; the description and video link shown on an event are not modelled.
- Incoming bookings, their matching to existing appointments and their cancellation.
- Meetings.Meeting.Push: deletions at the service are taken to succeed; deleting the appointment, which queues a removal for each meeting, is not modelled.
- Storage.Connection.Live: deleting documents or matters, which trashes their copies, moving a document to another matter, and how a folder's name is made safe are not modelled.
- TwoFactor.Device.Check: HMAC and SHA-256 are uninterpreted, so nothing is said about how hard a code is to guess; two codes that hash alike are one code.
- TwoFactor.GuessesAreBounded: accepted codes, which clear the counter, are outside the bound by its own terms.
- DeepL.Batches: a text's size in the request is given with it.
- Mailbox.SyncFolder: message headers, the same message seen in two folders, and a message gone between search and fetch are not modelled; the recent stretch searched by date is given.
- Stripe's switching of links on and off, which its webhook does before it returns a record; records arrive as they are returned.
- Storage and checking of secrets, OAuth, HTTP, sockets, templates, forms, admin and the other connectors.
