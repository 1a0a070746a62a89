# tukekan ledger — a Dafny model

tukekan (付け勘) is a small shared ledger for a circle of friends. Each **account** belongs to a
**group** and keeps an address book of **partners**, the people it lends money to or borrows
from. A partner may be linked to another account of the group. Every **transaction** records a
signed amount against one of the owner's partners: positive for money lent, negative for money
borrowed or repaid. Joining a group through its invite code gives the newcomer and every existing
member a pair of linked partners. An ADMIN can rename the group, rotate its invite code and
remove members. The "from members" views turn the links around: they show what other members
recorded against the caller.

This project models the server actions, the three data scripts and the UI helpers that carry
logic, and proves properties about them:

| file | models |
|---|---|
| `wrappers.dfy` | `Option` and `Result` |
| `js_strings.dfy` | the JavaScript string behaviour the code relies on: `parseInt(…, 10)`, `Number(…)` on optionally signed digit strings, `trim`, `split`/`join`, `toString`, `Math.abs`, `toLocaleString` digit grouping, code-unit length |
| `sorting.dfy` | the stable `Array.sort`, as permutation plus sortedness; sums, `Distinct`, filters |
| `ledger.dfy` | the four tables (`Store`: groups, accounts, partners, transactions), ids, error messages, zod length checks |
| `transaction_actions.dfy` | `src/actions/transaction.ts` |
| `partner_actions.dfy` | `src/actions/partner.ts` |
| `group_actions.dfy` | `src/actions/group.ts` |
| `from_members.dfy` | `src/actions/from-members.ts` |
| `member_actions.dfy` | `src/actions/member.ts` |
| `auth_actions.dfy` | `src/actions/auth.ts` |
| `import_csv.dfy` | `prisma/import-csv.ts` |
| `migrate_to_groups.dfy` | `prisma/migrations/migrate-to-groups.ts` |
| `seed.dfy` | `prisma/seed.ts` |
| `date_utils.dfy` | `src/lib/dateUtils.ts` (`formatDateForDisplay`) |
| `transaction_fields.dfy` | the amount toggle and description field shared by the two transaction forms |
| `copy_history.dfy` | `copy-transaction-history-button.tsx` |
| `edit_modal.dfy` | `transaction-edit-modal.tsx` |
| `transaction_form.dfy` | `transaction-form.tsx` |
| `proxy.dfy` | `src/proxy.ts` |
| `bottom_bar.dfy` | `src/components/layouts/bottom-bar.tsx` |

How the model is built:

- **State-changing actions.** Each one is a method on a `Store` object whose four map fields it
  reassigns. Its `ensures` ties the result and the new tables to a pure decision function, such as
  `CreateOutcome` or `RemoveMemberDecision`. The decision function states the checks, in the
  source's order, and what the success value is.
- **Read-only actions.** These are functions, or methods that change nothing.
- **Session and oracles.** The session is `Option<AccountId>`. "Now", fresh ids, invite codes,
  password hashing and password verification are parameters.
- **Table order.** The order in which the database lists a table is a parameter `scan` listing
  every key once (`Enumerates`).
- **React components.** Each becomes a class whose fields are the component's `useState` values.
  Its handlers are methods.

## Model

| member | source | states |
|---|---|---|
| TransactionActions.AmountValue | src/actions/transaction.ts:61-63 | an absent or empty amount field gives no number; otherwise the amount is `parseInt` of the field |
| TransactionActions.AmountIssue | src/actions/transaction.ts:32-37 | an amount is accepted iff it is present, lies in [-10,000,000, 10,000,000] and is not 0 |
| TransactionActions.DescriptionIssue | src/actions/transaction.ts:38-41 | a description is accepted iff it is absent or has at most 100 UTF-16 code units |
| TransactionActions.DateIssue | src/actions/transaction.ts:42-67 | a date is accepted iff it parses and is not after now; a missing date means now |
| TransactionActions.ValidateEntry | src/actions/transaction.ts:30-78 | accepted iff amount, description and date all are; the result carries the parsed amount, the date, and the description with "" turned into null |
| TransactionActions.ValidateCreate | src/actions/transaction.ts:30-85 | the create schema: accepted iff the partner id is non-empty and the entry is accepted; the id comes back as given |
| TransactionActions.ValidateUpdate | src/actions/transaction.ts:117-163 | the update schema: accepted iff the transaction id is non-empty and the entry is accepted |
| TransactionActions.CreateOutcome | src/actions/transaction.ts:52-108 | the checks in order are session, schema, partner exists, partner owned by the caller; on success the new row has the caller as owner, the given partner and the validated values |
| TransactionActions.CreateTransaction | src/actions/transaction.ts:52-113 | adds exactly the decided row under the fresh id, changes nothing on failure, and keeps every row valid and recorded against a partner of its owner |
| TransactionActions.UpdateOutcome | src/actions/transaction.ts:139-192 | the checks in order are session, schema, row exists, row owned by the caller; success changes only amount, description and date, keeping owner and partner |
| TransactionActions.UpdateTransaction | src/actions/transaction.ts:139-197 | overwrites only the target row with the decided row; the caller's other rows and everyone else's rows are untouched |
| TransactionActions.DeleteOutcome | src/actions/transaction.ts:206-224 | succeeds iff there is a session and the row exists and is the caller's; otherwise the error of the first failing check |
| TransactionActions.DeleteTransaction | src/actions/transaction.ts:206-233 | removes exactly the target row on success and nothing on failure |
| TransactionActions.DescriptionCounts | src/actions/transaction.ts:14-21 | one row per distinct non-null description of the caller, carrying its usage count |
| TransactionActions.Top | src/actions/transaction.ts:22 | `take: 10`: a prefix of at most 10 rows, all of them when there are at most 10 |
| TransactionActions.DescriptionSuggestions | src/actions/transaction.ts:8-27 | [] without a session; otherwise at most 10 distinct descriptions, each from the caller's own transactions, ordered by usage count, non-increasing |
| TransactionActions.OwnDescriptionSource | src/actions/transaction.ts:14-19 | every collected description is that of one of the owner's own transactions |
| TransactionActions.SuggestionFacts | src/actions/transaction.ts:14-27 | at most 10 suggestions, distinct, each the description of one of the caller's rows, in non-increasing usage count |
| TransactionActions.RankedFacts | src/actions/transaction.ts:14-21 | the ranked descriptions are distinct and the caller's own, each with its exact usage count, counts non-increasing |
| TransactionActions.SuggestionsAreMostUsed | src/actions/transaction.ts:14-23 | any description of the caller that is not suggested is used no more often than every suggestion |
| TransactionActions.SuggestionCount | src/actions/transaction.ts:14-25 | with a session, exactly min(10, number of distinct descriptions the caller used) suggestions (`take: 10` over the grouped rows) |
| TransactionActions.FewDescriptionsAllSuggested | src/actions/transaction.ts:14-25 | with ten or fewer distinct descriptions, every description the caller used is suggested |
| TransactionActions.RankOf | src/actions/transaction.ts:14-21 | every description of the caller has a place in the ranking |
| PartnerActions.ByNameTotalPreorder | src/actions/partner.ts:22 | the name order (code-point order standing in for the database's collation) is total and transitive |
| PartnerActions.OwnedSummaries | src/actions/partner.ts:19-23 | exactly the caller's partners, as (id, name), each once |
| PartnerActions.GetPartners | src/actions/partner.ts:13-26 | [] without a session; otherwise exactly the caller's partners, each once, sorted by name |
| PartnerActions.PartnersByNameFacts | src/actions/partner.ts:19-25 | the sorted list holds every partner of the owner and only those |
| PartnerActions.ValidatePartnerForm | src/actions/partner.ts:28-63 | accepted iff the name has 1-50 code units, untrimmed; an empty link field means no link |
| PartnerActions.CreatePartnerOutcome | src/actions/partner.ts:45-95 | the checks in order are session, schema, (owner, name) not yet taken, linked account exists; success is the row (name, caller, link or null) |
| PartnerActions.FindByOwnerName | src/actions/partner.ts:66-73 | finds the caller's partner with that name iff one exists |
| PartnerActions.CreatePartner | src/actions/partner.ts:45-107 | inserts exactly the decided row under the fresh id, changes nothing on failure, and keeps (owner, name) unique |
| PartnerActions.CreatePartnerOwnRowsOnly | src/actions/partner.ts:66-77 | the outcome depends only on the caller's own rows, so another owner's partner of the same name is no conflict |
| PartnerActions.CreatePartnerTwiceRejected | src/actions/partner.ts:66-77 | repeating a successful creation is refused with the duplicate-name error |
| GroupActions.GetGroupByInviteCode | src/actions/group.ts:16-22 | found iff some group has the code, and then it is that group |
| GroupActions.GroupMembers | src/actions/group.ts:77-80 | exactly the accounts of the group, each once |
| GroupActions.MemberRows | src/actions/group.ts:280-289 | each member's id, name, role and createdAt, in order |
| GroupActions.GetGroupMembers | src/actions/group.ts:270-292 | [] without a session or account; otherwise every account of the caller's group once, with name, role and createdAt, in non-decreasing createdAt order |
| GroupActions.GroupRowsListed | src/actions/group.ts:275-291 | the group's rows built from the accounts in `createdAt` order list every member of the group once, with name, role and createdAt, in non-decreasing createdAt order |
| GroupActions.GroupMembersOrdered | src/actions/group.ts:276-290 | picking a group's accounts out of a listing keeps that listing's order |
| Sorting.SortByStable | src/components/features/transaction/copy-transaction-history-button.tsx:32-36 | the sort is stable: for any element, its ties (elements comparing both ways with it) come out in the order they went in |
| Sorting.InsertByStable | src/components/features/transaction/copy-transaction-history-button.tsx:32-36 | inserting an element places it ahead of every tie of its already in the list |
| Sorting.FilterKeepsOrder | src/actions/group.ts:285-290 | keeping only some entries of a list ordered by a key leaves it ordered by that key |
| GroupActions.ValidateRegister | src/actions/group.ts:25-54 | accepted iff the name has 1-50 code units, the password at least 6 and the invite code at least 1 |
| GroupActions.RegisterDecision | src/actions/group.ts:44-72 | the checks in order are schema, invite code resolves, name not used in that group; success is that group |
| GroupActions.PairRows | src/actions/group.ts:93-108 | 2N rows: for member k, (owner k, newcomer's name, link to newcomer) then (owner newcomer, k's name, link to k) |
| GroupActions.InsertRows | src/actions/group.ts:93-110 | the partner table gains exactly the new ids with their rows; every other row is kept |
| GroupActions.InsertRowsKeepsNamesUnique | src/actions/group.ts:93-110 | inserting conflict-free rows under fresh ids keeps (owner, name) unique |
| GroupActions.CreateMany | src/actions/group.ts:93-110 | `createMany` inserts all rows iff none breaks the (owner, name) key, and otherwise none |
| GroupActions.RegisterWithInvite | src/actions/group.ts:40-120 | on a refused decision nothing changes; otherwise one MEMBER account in the group, then 2N partner rows or, on a key conflict, none with the account kept |
| GroupActions.PairRowsConflictIff | src/actions/group.ts:66-110 | the batch conflicts iff a member already has a partner with the newcomer's name, or two members share a name |
| GroupActions.RegisterLinksBothWays | src/actions/group.ts:93-108 | after the batch each member and the newcomer hold partners linked to each other |
| GroupActions.DistinctLength | src/actions/group.ts:77-80 | the members read are no more than the accounts, so the oracle's 2·|scan| ids suffice |
| GroupActions.ExampleAccepted | src/actions/group.ts:56-80 | a concrete store where the registration is accepted but the pair rows conflict |
| GroupActions.ExampleRetryRefused | src/actions/group.ts:66-72 | once the orphaned account exists, a retry with the same name is refused |
| GroupActions.RegisterLeavesOrphan | src/actions/group.ts:66-110 | registering in that store fails after creating the account, and the retry is refused as a taken name |
| GroupActions.RegisterWithInviteAtomic | src/actions/group.ts:40-120 | the corrected action: a failure changes no table; success is as in `RegisterWithInvite` |
| GroupActions.AdminGroup | src/actions/group.ts:135-198 | succeeds iff the caller's account exists and is ADMIN, giving its group; missing account and non-admin have their own errors |
| GroupActions.RegenerateDecision | src/actions/group.ts:129-147 | the checks in order are session, account, ADMIN; success names the caller's group |
| GroupActions.RegenerateInviteCode | src/actions/group.ts:129-156 | on success only the caller's group's invite code changes, to the returned fresh code; invite codes stay unique |
| GroupActions.RegenerateRetiresOldCode | src/actions/group.ts:148-153 | after rotation the old code resolves to nothing and the new one to the group |
| GroupActions.ValidateGroupName | src/actions/group.ts:159-164 | accepted iff the name has 1-50 code units |
| GroupActions.UpdateGroupNameDecision | src/actions/group.ts:171-198 | the checks in order are session, name, account, ADMIN; success names the caller's own group and the new name |
| GroupActions.UpdateGroupName | src/actions/group.ts:171-206 | on success only the caller's group's name changes; otherwise nothing |
| GroupActions.RemoveMemberDecision | src/actions/group.ts:214-248 | the checks in order are session, caller, ADMIN, not self, target exists, same group |
| GroupActions.Severed | src/actions/group.ts:251-259 | every link to the member and every link out of the member's own partners becomes null; nothing else changes and no partner is deleted |
| GroupActions.SeveredInTwoSteps | src/actions/group.ts:251-259 | clearing the links to the member and then the links of the member's own partners is exactly the severing |
| GroupActions.SeverLinks | src/actions/group.ts:251-259 | the address books afterwards are the severed ones |
| GroupActions.RemoveMember | src/actions/group.ts:214-267 | on success the links are severed and only the member's account is deleted; on failure nothing changes |
| GroupActions.RemoveMemberKeepsLinksResolved | src/actions/group.ts:251-264 | if every link pointed at an account before, it still does after the removal |
| FromMembers.SelectedFor | src/actions/from-members.ts:31-43 | exactly the transactions whose partner links to the caller, each once; the owner plays no part |
| FromMembers.Owners | src/actions/from-members.ts:48-49 | the owner of each row |
| FromMembers.SelectedOwnersIn | src/actions/from-members.ts:31-43 | every selected row's owner is an account |
| FromMembers.TallyByOwner | src/actions/from-members.ts:46-66 | the `for` loop over `balanceMap` produces exactly the tally function |
| FromMembers.GetMemberBalancesForMe | src/actions/from-members.ts:25-70 | throws without a session; otherwise the tally of the selected rows, sorted by magnitude |
| FromMembers.TallyStep | src/actions/from-members.ts:48-58 | one more row adds its owner at the end if new, and its amount to that owner's balance |
| FromMembers.BalanceOfAbsent | src/actions/from-members.ts:48-58 | an owner with no row has balance 0 |
| FromMembers.TallyKeepsTotal | src/actions/from-members.ts:46-58 | the per-owner balances add up to the sum of all amounts |
| FromMembers.TalliedEntries | src/actions/from-members.ts:46-66 | the tally has one entry per owner, in order of first appearance, with the owner's name and summed amounts |
| FromMembers.BalancesEntries | src/actions/from-members.ts:46-69 | each entry is an owner of some selected row with its name and exact sum (zero sums included), and every such owner has one |
| FromMembers.TalliedEntry | src/actions/from-members.ts:46-66 | an entry of the tally belongs to some row's owner and carries that owner's name and balance |
| FromMembers.OwnerTallied | src/actions/from-members.ts:48-58 | every row's owner has an entry |
| FromMembers.BalancesOrdered | src/actions/from-members.ts:68-69 | no owner is listed twice, and larger magnitudes come first |
| FromMembers.BalancesTotal | src/actions/from-members.ts:46-111 | grouping keeps the total: the balances add up to the sum of the selected amounts |
| FromMembers.GetTotalBalanceForMe | src/actions/from-members.ts:108-111 | throws without a session; otherwise the sum of every selected amount |
| FromMembers.Lines | src/actions/from-members.ts:95-102 | each row with the recording member's id and name, in order |
| FromMembers.SortedOwnersIn | src/actions/from-members.ts:81-93 | sorting keeps every row's owner an account |
| FromMembers.HistoryLines | src/actions/from-members.ts:81-102 | line i shows row i of the selection sorted newest first |
| FromMembers.HistoryFromRows | src/actions/from-members.ts:81-102 | every line shows one of the selected rows |
| FromMembers.HistoryCoversRows | src/actions/from-members.ts:81-102 | every selected row is shown |
| FromMembers.HistoryNewestFirst | src/actions/from-members.ts:87 | the history is ordered by date, newest first |
| FromMembers.GetTransactionsForMe | src/actions/from-members.ts:75-103 | Unauthorized iff there is no session; otherwise the history of the selected rows |
| MemberActions.OwnedTotalOfNone | src/actions/member.ts:29-33 | an account that owns no transaction totals 0 |
| MemberActions.OwnedTotalOthersIgnored | src/actions/member.ts:29-33 | other owners' transactions do not change an account's total |
| MemberActions.WithTotals | src/actions/member.ts:29-34 | each fetched account with its name and the sum of the amounts it owns |
| MemberActions.GetMembers | src/actions/member.ts:12-39 | Unauthorized iff there is no session; otherwise as many entries as accounts other than the caller |
| MemberActions.OthersCount | src/actions/member.ts:18-19 | every account but the caller is fetched, so the count is all accounts minus one when the caller is among them |
| MemberActions.OthersListed | src/actions/member.ts:18-27 | the fetched accounts are each account but the caller, once |
| Sorting.SeqMatchesSet | src/actions/member.ts:18-27 | a duplicate-free listing of a set is as long as the set |
| MemberActions.GetMembersListed | src/actions/member.ts:18-38 | each entry is an account other than the caller, with its name and total |
| MemberActions.GetMembersComplete | src/actions/member.ts:18-27 | every other account is listed, whatever its group |
| MemberActions.GetMembersOnce | src/actions/member.ts:18-38 | no account is listed twice |
| MemberActions.GetMembersOrdered | src/actions/member.ts:35-38 | the list is the mapped accounts reordered, larger magnitudes first |
| AuthActions.Login | src/actions/auth.ts:14-54 | succeeds iff both fields are non-empty, the account exists and the password verifies; the claims are the account's id and name |
| AuthActions.LoginFailuresLookAlike | src/actions/auth.ts:42-49 | an unknown account and a wrong password give the identical error |
| AuthActions.LoginUserCheckedFirst | src/actions/auth.ts:14-34 | an empty user is reported before an empty password |
| AuthActions.GetCurrentUser | src/actions/auth.ts:66-76 | null without a session or account; otherwise the session account's id and name |
| AuthActions.UpdateProfileOutcome | src/actions/auth.ts:93-159 | the checks in order are session, name length, name free among other accounts, then for a new password: current given, at least 6, account exists, current verifies; success renames and rehashes iff a new password was given |
| AuthActions.UpdateProfile | src/actions/auth.ts:93-169 | overwrites only the caller's row with the decided one; on failure nothing changes |
| AuthActions.KeepingOwnNameAllowed | src/actions/auth.ts:114-124 | keeping one's own name is never a clash |
| AuthActions.UpdateProfileKeepsGroupAndRole | src/actions/auth.ts:149-159 | an update keeps group and role, and keeps the hash without a new password |
| AuthActions.RenamedLoginCarriesNewName | src/actions/auth.ts:155-166 | after a rename, logging in with the same password signs the new name |
| ImportCsv.CleanedAmount | prisma/import-csv.ts:24-27 | removing '¥' and ',' from a prefix and a grouped numeral leaves the plain numeral |
| ImportCsv.ParseAmountOfYen | prisma/import-csv.ts:24-28 | "¥1,300" style amounts read back as their value |
| ImportCsv.ParseAmountOfNegativeYen | prisma/import-csv.ts:24-28 | "-¥20,000" style amounts read back as the negative value |
| ImportCsv.ParseDateOfNumerals | prisma/import-csv.ts:30-34 | "y/m/d" gives (full year, m - 1, d) |
| ImportCsv.ParseDateOfDigits | prisma/import-csv.ts:31-34 | three digit runs joined by '/' are read as year, month and day, in that order |
| ImportCsv.SplitThree | prisma/import-csv.ts:32 | a date of three numerals splits into exactly those numerals |
| ImportCsv.ClosingQuote | prisma/import-csv.ts:46 | the lazy `".*?"` ends at a quote after the opening one |
| ImportCsv.NonCommaRun | prisma/import-csv.ts:46 | `[^,]+` takes the longest comma-free prefix |
| ImportCsv.TokensAfterComma | prisma/import-csv.ts:46 | after a comma, comma-joined plain fields split back into the same fields |
| ImportCsv.LineTokensOfPlainFields | prisma/import-csv.ts:46 | a line of plain fields, first and last non-empty, splits back into those fields, empty middle fields included |
| ImportCsv.LeadingEmptyFieldDropped | prisma/import-csv.ts:46 | a leading empty field is not matched: ",x" gives ["x"] |
| ImportCsv.QuotedFieldKeepsCommas | prisma/import-csv.ts:46 | a quoted field is one token even with commas inside |
| ImportCsv.CleanQuotedField | prisma/import-csv.ts:47 | stripping the quotes and trimming gives the quoted text back |
| ImportCsv.ParseLine | prisma/import-csv.ts:44-57 | a line gives a row iff it has at least three fields |
| ImportCsv.ParseCsv | prisma/import-csv.ts:37-59 | after the trimmed content's first line, one row per remaining line, each the parse of its line |
| ImportCsv.PartnerNames | prisma/import-csv.ts:70 | the distinct row names: each row's name is among them and each comes from a row |
| ImportCsv.RowEntries | prisma/import-csv.ts:156-186 | a row gives one transaction, plus a second when it has a repayment date |
| ImportCsv.SummaryLines | prisma/import-csv.ts:200-211 | only non-zero balances, each labelled 貸し when positive and 借り otherwise |
| ImportCsv.Import | prisma/import-csv.ts:61-220 | unreadable content changes nothing; otherwise the tables and report are those the rows plan |
| ImportCsv.ImportRows | prisma/import-csv.ts:73-217 | clears the tables, then creates group, admin, members, partners both ways and transactions |
| ImportCsv.CreateMembers | prisma/import-csv.ts:107-121 | one MEMBER account per name, in name order |
| ImportCsv.CreateOwnPartners | prisma/import-csv.ts:124-136 | the admin gets one partner per name, linked to that member |
| ImportCsv.CreateBackPartners | prisma/import-csv.ts:139-149 | each member gets a partner "だいち" linked to the admin |
| ImportCsv.CreateTransactions | prisma/import-csv.ts:152-186 | the planned transactions under fresh ids; the counters are the rows and the rows with a repayment |
| ImportCsv.ImportedAccounts | prisma/import-csv.ts:95-121 | one admin plus one member per distinct name, all in the group with the shared hash |
| ImportCsv.ImportedPartners | prisma/import-csv.ts:124-149 | (owner, name) is unique and every partner is linked to an account that has a partner linked back |
| ImportCsv.PartnerLinked | prisma/import-csv.ts:124-149 | each partner's owner and link are accounts, and the linked account holds the partner linked back |
| ImportCsv.PartnerPairDiffers | prisma/import-csv.ts:124-149 | no two imported partners share an owner and a name |
| ImportCsv.RowEntriesNet | prisma/import-csv.ts:156-186 | a row's transactions belong to the admin and its partner, and sum to 0 for a repaid row |
| ImportCsv.EntriesCount | prisma/import-csv.ts:153-190 | the number of transactions is rows plus repaid rows, all owned by the admin |
| ImportCsv.EntriesNet | prisma/import-csv.ts:156-198 | each name's partner sums to that name's net amount |
| ImportCsv.SumNetsTotal | prisma/import-csv.ts:194-217 | the per-name nets add up to the total net |
| ImportCsv.SummaryKeepsTotal | prisma/import-csv.ts:200-217 | dropping zero balances does not change the total |
| ImportCsv.SummaryListsNonZero | prisma/import-csv.ts:200-211 | the summary lists exactly the non-zero balances |
| ImportCsv.ImportReportFacts | prisma/import-csv.ts:153-217 | transactionCount is the rows, the stored transactions are the two counters together, and the total balance is the summed nets |
| MigrateToGroups.Selected | prisma/migrations/migrate-to-groups.ts:26-29 | exactly the accounts with a null group, each once |
| MigrateToGroups.Migrate | prisma/migrations/migrate-to-groups.ts:23-60 | the loop creates the planned groups and updates the planned accounts; the count is the selected accounts |
| MigrateToGroups.AccountsUpToFacts | prisma/migrations/migrate-to-groups.ts:49-54 | the first k selected accounts are in their groups as ADMIN; the other accounts are untouched |
| MigrateToGroups.MigratedAccounts | prisma/migrations/migrate-to-groups.ts:38-57 | each selected account gets its own group and ADMIN; grouped accounts are untouched; afterwards none is ungrouped |
| MigrateToGroups.RerunSelectsNothing | prisma/migrations/migrate-to-groups.ts:26-34 | a second run selects nothing |
| MigrateToGroups.NothingUngrouped | prisma/migrations/migrate-to-groups.ts:31-34 | with no ungrouped account nothing is selected |
| MigrateToGroups.GroupsUpToFacts | prisma/migrations/migrate-to-groups.ts:38-47 | each processed account has a new group named after it, with the fresh code |
| MigrateToGroups.MigratedGroups | prisma/migrations/migrate-to-groups.ts:38-47 | as many groups are added as accounts selected; old groups are kept; invite codes stay unique |
| MigrateToGroups.NewGroupCode | prisma/migrations/migrate-to-groups.ts:39-46 | a group that is new carries one of the fresh invite codes |
| Seed.Upsert | prisma/seed.ts:24-28 | afterwards the name exists; an existing name leaves the table as it was; otherwise one row is added with that name and hash |
| Seed.SeedUpTo | prisma/seed.ts:23-29 | rows that existed are kept, and new rows have fresh ids |
| Seed.SeedAccounts | prisma/seed.ts:14-29 | the loop performs the three upserts in order |
| Seed.SeedNamesTaken | prisma/seed.ts:17-29 | after the run user1, user2 and user3 exist |
| Seed.SeedCreatedRows | prisma/seed.ts:15-28 | every created row is a seed user with the shared hash and no group |
| Seed.SeedOfSeeded | prisma/seed.ts:23-29 | seeding a table that already has the three names changes nothing |
| Seed.SeedIdempotent | prisma/seed.ts:23-29 | seeding twice gives the same table as seeding once |
| DateUtils.FormatDateForDisplay | src/lib/dateUtils.ts:17-23 | the text ends with the weekday's closing parenthesis |
| DateUtils.FormatDateInjective | src/lib/dateUtils.ts:17-23 | distinct dates give distinct texts, since 年, 月, 日 and the parentheses delimit the numbers |
| DateUtils.DayPartInjective | src/lib/dateUtils.ts:23 | the day and weekday part determines day and weekday |
| DateUtils.FormatDateExample | src/lib/dateUtils.ts:17-23 | 1 January 2025, a Wednesday, shows as "2025年1月1日(水)", without zero padding |
| TransactionFields.SignedAmount | src/components/features/transaction/transaction-edit-modal.tsx:75-77 | a value iff the field parses; the magnitude is kept; a positive field gives a positive amount iff lending |
| TransactionFields.ToggleRoundTrip | src/components/features/transaction/transaction-edit-modal.tsx:55-77 | showing an amount as toggle plus magnitude and reading it back gives the amount |
| CopyHistory.FormatAmount | src/components/features/transaction/copy-transaction-history-button.tsx:15-18 | starts with '+' iff the amount is positive; never holds '-' |
| CopyHistory.FormatAmountDigits | src/components/features/transaction/copy-transaction-history-button.tsx:15-18 | removing '+', '¥' and ',' leaves the magnitude's numeral |
| CopyHistory.FormatAmountInjective | src/components/features/transaction/copy-transaction-history-button.tsx:15-18 | distinct amounts show differently |
| CopyHistory.FormatBalance | src/components/features/transaction/copy-transaction-history-button.tsx:20-22 | ends with ')' iff the balance is negative; never holds '-' |
| CopyHistory.FormatBalanceDigits | src/components/features/transaction/copy-transaction-history-button.tsx:20-22 | removing the marks leaves the magnitude's numeral |
| CopyHistory.FormatBalanceInjective | src/components/features/transaction/copy-transaction-history-button.tsx:20-22 | distinct balances show differently |
| CopyHistory.BalanceField | src/components/features/transaction/copy-transaction-history-button.tsx:46 | the field is empty iff there is no running balance |
| CopyHistory.Fields | src/components/features/transaction/copy-transaction-history-button.tsx:41-47 | one field per header column |
| CopyHistory.Lines | src/components/features/transaction/copy-transaction-history-button.tsx:40-48 | one line per transaction, in order |
| CopyHistory.ExportOrder | src/components/features/transaction/copy-transaction-history-button.tsx:31-36 | the export holds the transactions themselves, each once, oldest first |
| CopyHistory.DateSingleField | src/components/features/transaction/copy-transaction-history-button.tsx:42 | a displayed date holds no tab and no newline |
| CopyHistory.HistoryTsvLines | src/components/features/transaction/copy-transaction-history-button.tsx:38-50 | splitting the content at newlines gives the header and then one line per transaction, oldest first: n + 1 lines |
| CopyHistory.LineFields | src/components/features/transaction/copy-transaction-history-button.tsx:40-47 | splitting a line at tabs gives its five fields back: date, partner, description or "", amount, balance or "" |
| CopyHistory.CopyContent | src/components/features/transaction/copy-transaction-history-button.tsx:62-64 | nothing iff there are no transactions; otherwise the TSV |
| CopyHistory.CopyButton.constructor | src/components/features/transaction/copy-transaction-history-button.tsx:28 | the button starts enabled |
| CopyHistory.CopyButton.HandleCopy | src/components/features/transaction/copy-transaction-history-button.tsx:30-60 | the content is the TSV; the button is marked copied iff the clipboard accepted it |
| CopyHistory.CopyButton.ResetCopied | src/components/features/transaction/copy-transaction-history-button.tsx:56 | the timer enables the button again |
| EditModal.Submission | src/components/features/transaction/transaction-edit-modal.tsx:73-81 | a submission iff the amount parses; it carries the row id, the signed amount's numeral, the description and the day |
| EditModal.EditDialog.constructor | src/components/features/transaction/transaction-edit-modal.tsx:45-50 | the initial state: lending, empty fields, no confirmation, no error |
| EditModal.EditDialog.Load | src/components/features/transaction/transaction-edit-modal.tsx:53-63 | lending iff the amount is not negative, the magnitude's numeral, the description or "", the day; confirmation off and error cleared; no transaction changes nothing |
| EditModal.EditDialog.SetLending | src/components/features/transaction/transaction-edit-modal.tsx:45 | the toggle takes the chosen side |
| EditModal.EditDialog.SetAmount | src/components/features/transaction/transaction-edit-modal.tsx:46 | the amount field takes the typed text |
| EditModal.EditDialog.SetDate | src/components/features/transaction/transaction-edit-modal.tsx:206-212 | the date field takes the picked day |
| EditModal.EditDialog.ChooseSuggestion | src/components/features/transaction/transaction-edit-modal.tsx:98-100 | a suggestion replaces the description |
| EditModal.EditDialog.Submit | src/components/features/transaction/transaction-edit-modal.tsx:73-83 | nothing without a transaction; otherwise the submission of the current fields |
| EditModal.EditDialog.UpdateSucceeded | src/components/features/transaction/transaction-edit-modal.tsx:66-71 | a successful update closes the dialog |
| EditModal.EditDialog.AskDelete | src/components/features/transaction/transaction-edit-modal.tsx:223 | the trash button opens the confirmation |
| EditModal.EditDialog.CancelDelete | src/components/features/transaction/transaction-edit-modal.tsx:260 | cancel goes back to the form |
| EditModal.EditDialog.Delete | src/components/features/transaction/transaction-edit-modal.tsx:85-96 | nothing without a transaction; a failure is recorded with the dialog kept open; success closes it |
| EditModal.SubmitUnedited | src/components/features/transaction/transaction-edit-modal.tsx:53-83 | loading a transaction and submitting it unedited sends its id, amount, description and day back; the amount parses to the original |
| TransactionForm.NewPartnerRequest | src/components/features/transaction/transaction-form.tsx:93-96 | nothing iff the input is all whitespace; otherwise the name has no edge whitespace |
| TransactionForm.Form.constructor | src/components/features/transaction/transaction-form.tsx:46-58 | the default partner or none, lending, empty amount and description, today's day, input closed, the partners passed in |
| TransactionForm.Form.SelectPartner | src/components/features/transaction/transaction-form.tsx:83-91 | "new" opens the input and clears the choice; any other value closes it and chooses that partner |
| TransactionForm.Form.SetNewPartnerName | src/components/features/transaction/transaction-form.tsx:57 | the name input takes the typed text |
| TransactionForm.Form.CreatePartner | src/components/features/transaction/transaction-form.tsx:93-98 | sends the trimmed name, or nothing when it is blank |
| TransactionForm.Form.CancelNewPartner | src/components/features/transaction/transaction-form.tsx:171-174 | the back button closes the input and clears it |
| TransactionForm.Form.PartnerCreated | src/components/features/transaction/transaction-form.tsx:61-73 | the list gains the partner and stays sorted by name, the partner is chosen, the input closes empty |
| TransactionForm.Form.SetLending | src/components/features/transaction/transaction-form.tsx:49 | the toggle takes the chosen side |
| TransactionForm.Form.SetAmount | src/components/features/transaction/transaction-form.tsx:50 | the amount field takes the typed text |
| TransactionForm.Form.SetDate | src/components/features/transaction/transaction-form.tsx:252-259 | the date field takes the picked day |
| TransactionForm.Form.ChooseSuggestion | src/components/features/transaction/transaction-form.tsx:100-102 | a suggestion replaces the description |
| TransactionForm.Form.Submit | src/components/features/transaction/transaction-form.tsx:104-113 | a submission iff the amount parses; it carries the signed amount's numeral, the chosen partner, description and day |
| Proxy.IsAuthenticated | src/proxy.ts:17-25 | authenticated iff a non-empty token is present and verifies |
| Proxy.Middleware | src/proxy.ts:27-35 | public and signed in goes to "/"; not public and anonymous goes to "/login"; everything else passes |
| Proxy.TargetsClassified | src/proxy.ts:9-15 | "/login" is public and "/" is not |
| Proxy.RedirectTargets | src/proxy.ts:27-33 | a signed-in user is never sent to "/login", an anonymous one never to "/" |
| Proxy.NoRedirectLoop | src/proxy.ts:9-35 | the redirect target lets the same user through |
| Proxy.PrefixIsPublic | src/proxy.ts:15 | every path beginning with "/login" is public |
| BottomBar.Highlighted | src/components/layouts/bottom-bar.tsx:8-31 | two items: home is highlighted iff the path is exactly "/", members iff the path starts with "/members" |
| BottomBar.AtMostOneActive | src/components/layouts/bottom-bar.tsx:28-31 | at most one item is highlighted on any page |
| BottomBar.MembersSubpagesActive | src/components/layouts/bottom-bar.tsx:28-31 | every page under "/members" highlights the members item |

## Left out

- JWT signing, verification and cookies (`src/lib/auth.ts`, `jose`): the session is an `Option<AccountId>`, and token verification in the proxy is a predicate parameter. `logout` only deletes the cookie and redirects, so it is not modelled.
- Password hashing and verification (bcrypt): they are function parameters, with no claim about their strength.
- Prisma I/O, `revalidatePath`, `redirect`, `console` output and `fs.readFileSync`: the tables are maps on `Store`, the CSV file is a string input, and the printed import summary is a returned report.
- The database schema is not part of this model. Its default role for `account.create`/`upsert` in the seed is a parameter `defaultRole`. Referential actions on delete are not modelled.
- `createId` (cuid2): fresh ids and invite codes are oracles with freshness preconditions.
- The store's listing order of `findMany` and `groupBy` without `orderBy` is a parameter listing every row once. The order among equal counts in the description ranking is left to that parameter.
- `toLocaleString` is modelled as grouping digits by three with ','. `localeCompare` is modelled as code-point order.
- `new Date(…)`, `toISOString` and time zones: server dates are integer instants. The create form's default day and the edit dialog's date input are strings given as input. The date the copy button displays is given as (year, month index, day, weekday).
- `formatDateToJST` (`src/lib/dateUtils.ts:6-15`) is not modelled: it depends on the locale and time zone libraries.
- The regular expressions in `import-csv.ts`:
  - The field matcher at line 46 is approximated by a tokenizer that has its visible behaviour: quoted fields, comma-free runs, and empty fields between commas.
  - Unterminated quotes, line terminators inside quotes and JavaScript's exact regex engine are not captured.
  - The proxy's route `matcher` config (`src/proxy.ts:38-40`) is left out.
- Concurrency: every action is one sequential step. The check-then-write races of `createPartner` and `registerWithInvite` are not modelled.
- Toasts, the clipboard, the two-second timer and React's scheduling: the clipboard's answer is a boolean input, and the timer is the method `ResetCopied`.
- The browser's own checks on the create form's date input (`required`, and `max` set to today) are not modelled: `TransactionForm.Form.SetDate` accepts any text.
- `isPending` flags are inputs of the `SubmitEnabled` and `CreatePartnerEnabled` predicates.
- JavaScript numbers: amounts are unbounded integers. The source's amounts are bounded by validation (±10,000,000), so no overflow arises in the modelled paths. `parseInt` is modelled for optional whitespace, an optional sign and the leading decimal digits; values beyond 2^53, where JavaScript loses precision, are not.
- ImportCsv.ParseDate: `Number` on each date part is modelled only for an optionally signed run of decimal digits (after trimming; empty is 0). JavaScript's `Number` also reads "1.5", "1e3", ".5", "0x10" and "Infinity", and `new Date(y, m, d)` then truncates a fraction. So a date piece in one of those forms is an invalid date here, while the script would build a date from it. Dates written as digit runs are covered by `ImportCsv.ParseDateOfDigits`.
- ImportCsv.Balances: the summary lists the partners in the order of the partner names the import collected. The script walks the `groupBy` rows, whose order the store does not specify, and only partners with transactions. The lines printed are the same (zero balances are skipped either way), but their order may differ.
- Seed.Upsert: the upsert finds an account by `name` alone, as `upsert({ where: { name } })` does, which treats the name as unique across all accounts. Registration and the import keep names unique only within a group (or within the import), and the model does not refuse a second account with a name used in another group. If two accounts share a name, the model's upsert leaves the table unchanged, while the store's behaviour then depends on a schema that is not part of this model.
- Prisma's validation of a row with a `NaN` amount or an `Invalid Date` is modelled only as a refused write: the import stops at that row with the earlier rows' transactions kept, and the error's text is not modelled.

Where the repository's written description and its code differ, the model follows the code:
- `createPartner` does not trim the name on the server; only the form trims it.
- `updateProfile` refuses a name held by any other account, in any group, not only within the caller's group.
- `getMembers` lists every account other than the caller, with no same-group filter.
- `registerWithInvite` is not all-or-nothing. When `createMany` hits the (owner, name) key, the new account is kept and no partner rows are created (see Findings).
- Names sort by code point (standing in for `localeCompare`). Ties in dates and counts keep the order the store lists the rows in.
- The CSV field matcher never matches an empty field at the start of a line, so a leading empty field is dropped (`ImportCsv.LeadingEmptyFieldDropped`).
- The delete action's `result.error` is an optional message.

## Findings

| source | as written | input that shows it | evidently intended | confidence | as-written member | corrected member |
|---|---|---|---|---|---|---|
| src/actions/group.ts:66-110 | `registerWithInvite` checks only that the name is free among the group's accounts, creates the account, then `createMany` pairs of partners; when an existing member already holds a partner with the newcomer's name the batch violates the (owner, name) key, the action fails, and the account stays without partners, so a retry with the same name is refused as taken | group g with invite "code", member Aoi who already has a partner "Ren"; Ren registers with that code | registration is all-or-nothing: when the partner batch cannot be inserted, no account is created | not executed | GroupActions.RegisterLeavesOrphan | GroupActions.RegisterWithInviteAtomic |
