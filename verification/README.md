# CEDICA admin back end, modelled in Dafny

This project models the administration back end of CEDICA, an equine-assisted therapy centre. The back end keeps:

- riders ("jinetes y amazonas"), their families, schools and work assignments;
- employees, and the horses ("equestrian") the riders work with;
- users, with roles and permissions;
- publications, and payments to employees;
- charges collected from riders, and contact messages.

Each module of `admin/src/core/module` has a mapper that turns ORM entities into dictionaries and back, a repository over its table, and form validators. Beside them are:

- the authentication service;
- the storage service for uploaded files;
- the generic `apply_filters` query builder;
- the web helpers: the error handler, the Jinja filters, the session guards and the creation-in-process check;
- the browser-side form validator, `form_validator.js`, which reads `data-validate` directives on inputs.

Python values are modelled by one datatype (`PyValues.Value`): `None`, booleans, integers, strings, dates, enum members, lists, dictionaries and objects. A dictionary is a `map<string, Value>`. An ORM object is the dictionary of its attributes. A database table is a sequence or map of such rows. An operation that would raise an exception on some input either requires that input away or returns `Wrappers.Result`, whichever the callers in the source rely on. An operation whose outcome depends on bcrypt, the clock, a regular expression or a storage call takes that outcome as a parameter.

The mappers are stated against their inverses: serialising an entity and rebuilding it keeps every column the two directions share. The repositories are stated against the table they read and write: what a call returns, what it changes and that nothing else changes. The validators are stated against independent per-field definitions.

## Model

| member | source | states |
|---|---|---|
| FormValidator.SetInputStatus | admin/static/js/form_validator.js:166-187 | the input ends with exactly one of `is-success` / `is-danger` (the one matching the verdict) and keeps its other classes; a help element is added only when the parent has none and the message is non-empty; the first help element shows the message and the others are untouched |
| FormValidator.SetInputStatusIdempotent | admin/static/js/form_validator.js:166-187 | marking an input twice with the same verdict and message is the same as marking it once |
| FormValidator.RepeatedStatusNeverDuplicatesHelp | admin/static/js/form_validator.js:174-179 | however many verdicts are applied to an input in a row, its parent never gets a second help element |
| FormValidator.ScanPatterns | admin/static/js/form_validator.js:122-131 | the `for ... of` loop with its `break` computes the reference scan: the first token whose table rule rejects the non-empty value ends the loop with that rule's message, and a token naming an inherited member of the table object throws |
| FormValidator.CheckInput | admin/static/js/form_validator.js:96-160 | the statement-by-statement checks of `validateInput` compute the reference verdict: invalid iff some check fails, with the message of the last failing one, or a throw from the pattern loop |
| FormValidator.ValidateInput | admin/static/js/form_validator.js:96-164 | returns the reference verdict and marks the input with it; when the pattern loop throws, the input is left unmarked |
| FormValidator.Overwrite | admin/static/js/form_validator.js:103-106 | one failing check clears the validity flag and replaces the message; a passing check changes neither |
| FormValidator.RequiredEmptyIsInvalid | admin/static/js/form_validator.js:97-106 | a `required` input whose trimmed value is empty is always reported invalid |
| FormValidator.RequiredMessageUnlessOverwritten | admin/static/js/form_validator.js:102-160 | for an empty required value, the shown message is "Este campo es requerido" unless a later length, date or number check also fails, in which case the last of those wins |
| FormValidator.EmptyValueNeverFailsPattern | admin/static/js/form_validator.js:124 | with an empty value no pattern rule is tested, whatever the tokens |
| FormValidator.PatternScanPassesIffNoBlocker | admin/static/js/form_validator.js:123-131 | the pattern loop passes iff no token is a rule rejecting the value (or an inherited member that throws) |
| FormValidator.PatternScanFirstBlockerWins | admin/static/js/form_validator.js:123-131 | the first token that stops the loop decides its outcome and message; later tokens are never looked at |
| FormValidator.NonTableTokensIgnored | admin/static/js/form_validator.js:124 | tokens that are not keys of the rule table (`required`, `past-date`, ...) do not change the pattern loop's outcome |
| FormValidator.VerdictMessage | admin/static/js/form_validator.js:99-160 | the verdict is valid iff none of the seven checks fails; a valid verdict has an empty message and an invalid one the message of the last failing check |
| FormValidator.Outcomes | admin/static/js/form_validator.js:84-88 | one verdict per flagged input, in document order |
| FormValidator.OutcomeAt | admin/static/js/form_validator.js:84-88 | each input's verdict on submit is its own `validateInput` verdict, independent of the other inputs |
| FormValidator.Submit | admin/static/js/form_validator.js:82-93 | every flagged input is validated, with no short-circuit; submission is prevented iff some input is invalid; an input whose pattern loop throws ends the handler before `preventDefault`, so the form is then submitted |
| ValidationPatterns.TableKeys | admin/static/js/form_validator.js:2-63 | `dni`, `phone`, `date`, `no` are own keys of the rule table; `required`, `past-date` and the empty token are not keys; `constructor` and `toString` are found on the prototype |
| ValidationPatterns.Matches | admin/static/js/form_validator.js:2-63 | on the empty value only the `title` and `no` patterns succeed among the spelled-out ones |
| ValidationPatterns.Patterns | admin/static/js/form_validator.js:2-63 | a token has a pattern entry iff it is an own key of the table, with that rule's message; an inherited member of the object gives an entry without a pattern |
| ValidationPatterns.LettersJoin | admin/static/js/form_validator.js:3-6 | a single space, apostrophe or hyphen between two letter words gives a letter word |
| ValidationPatterns.LettersAcceptsSpace | admin/static/js/form_validator.js:3-6 | `letters` accepts "Ana María" |
| ValidationPatterns.LettersAcceptsApostrophe | admin/static/js/form_validator.js:3-6 | `letters` accepts "O'Brien" |
| ValidationPatterns.LettersAcceptsHyphen | admin/static/js/form_validator.js:3-6 | `letters` accepts "Müller-Peña", with `ü` and `ñ` |
| ValidationPatterns.LettersRejects | admin/static/js/form_validator.js:3-6 | `letters` rejects a doubled separator, a trailing hyphen and digits |
| ValidationPatterns.AlphanumericExamples | admin/static/js/form_validator.js:11-14 | `alphanumeric` accepts "Calle 12-B." and rejects `ü`, an apostrophe and an underscore |
| ValidationPatterns.ExtendedPhoneExamples | admin/static/js/form_validator.js:23-26 | `extended_phone` accepts digits, `+`, `-`, parentheses and spaces in any arrangement, and rejects letters and dots |
| ValidationPatterns.DecimalExamples | admin/static/js/form_validator.js:27-30 | `decimal` accepts "3.14", ".5" and "10", and rejects a trailing dot, two dots and a sign |
| ValidationPatterns.JsLengthAstral | admin/static/js/form_validator.js:51-54 | a string of characters outside the Basic Multilingual Plane is twice as long in UTF-16 code units |
| ValidationPatterns.TitleCountsCodeUnits | admin/static/js/form_validator.js:51-54 | `title` accepts a one-line value of up to 100 UTF-16 code units: 100 characters of the Basic Multilingual Plane, but only 50 outside it |
| FormValidator.JsLength | admin/static/js/form_validator.js:108-120 | `value.length` in UTF-16 code units: between the number of characters and twice it |
| FormValidator.JsLengthAppend | admin/static/js/form_validator.js:108-120 | the code-unit length of a concatenation is the sum of the lengths |
| FormValidator.JsLengthCountsCharacters | admin/static/js/form_validator.js:108-120 | the code-unit length equals the number of characters iff none lies outside the Basic Multilingual Plane |
| ValidationPatterns.DigitCountRules | admin/static/js/form_validator.js:7-46 | `dni` accepts exactly 7 or 8 ASCII digits, `phone` 6 to 15, `country_code` 1 to 3, `area_code` 1 to 4, `phone_number` at least 6, `numbers` at least 1 |
| ValidationPatterns.DniExamples | admin/static/js/form_validator.js:31-34 | 7 and 8 digits pass; 9 digits and a trailing letter fail |
| ValidationPatterns.DateRuleIgnoresMonthLength | admin/static/js/form_validator.js:47-50 | the `date` rule checks shape only: 31/02/2023 passes; day 32, month 13 and year 2100 fail |
| ValidationPatterns.AnythingRuleRejectsLineBreak | admin/static/js/form_validator.js:59-62 | the `no` rule accepts a one-line value but not one containing a line break (`.` does not match it) |
| ValidationPatterns.TableEntryForDni | admin/static/js/form_validator.js:31-34 | the `dni` table entry is the rule's test with the message "El DNI debe tener 7 u 8 dígitos" |
| Queries.Keep | admin/src/core/module/common/repositories.py:8 | a filter keeps exactly the rows satisfying its condition, in order, and never adds a row |
| Queries.KeepAppend | admin/src/core/module/common/repositories.py:8 | filtering a concatenation is the concatenation of the filtered parts, so the kept rows keep their relative order |
| Queries.KeepSingle | admin/src/core/module/common/repositories.py:8 | a single row is kept iff it satisfies the condition |
| Queries.Where | admin/src/core/module/common/repositories.py:8 | `query.filter(c)` keeps the rows satisfying `c` and the ordering clauses |
| Queries.OrderBy | admin/src/core/module/common/repositories.py:20-22 | `query.order_by(k)` keeps the rows and appends one clause after those present |
| Queries.WhereAllIsConjunction | admin/src/core/module/common/repositories.py:4-8 | chained filters keep exactly the rows satisfying every condition |
| Queries.FilterConditions | admin/src/core/module/common/repositories.py:4-8 | at most one equality condition per filter item |
| Queries.OrderKeys | admin/src/core/module/common/repositories.py:15-22 | at most one clause per `order_by` pair |
| Queries.OrderAll | admin/src/core/module/common/repositories.py:15-22 | the ordering loop leaves the rows alone and appends its clauses in order |
| Queries.FilterConditionsMeaning | admin/src/core/module/common/repositories.py:4-8 | the chained equality filters hold on a row iff every item naming an attribute of the model equals the row's value; other items are skipped |
| Queries.ApplyFilters | admin/src/core/module/common/repositories.py:1-24 | the rows returned are exactly the input rows matching every known equality filter and, when `text` and a known `field` are given, containing the text; the clauses added are those of `order_by` on known fields with direction `asc` or `desc`, in list order, after the query's own |
| Queries.SearchConditionsMeaning | admin/src/core/module/common/repositories.py:1-13 | the chained filters of a search keep exactly the rows the search selects, and add no ordering |
| Queries.ApplyFiltersNarrows | admin/src/core/module/common/repositories.py:1-24 | every row returned is an input row, and there are no more of them than input rows |
| Queries.WhereAllShrinks | admin/src/core/module/common/repositories.py:4-13 | filtering never adds rows |
| Queries.OrderKeysMeaning | admin/src/core/module/common/repositories.py:16-22 | a clause is added iff its field is an attribute of the model and its direction is `asc` or `desc` |
| Queries.ApplyFiltersSkipsUnknownField | admin/src/core/module/common/repositories.py:5-6 | adding a filter on a name the model lacks leaves the result exactly as it was |
| Queries.ApplyFiltersIdentity | admin/src/core/module/common/repositories.py:2-24 | with no search and no ordering the query comes back unchanged |
| EmployeeRepository.LinkedUsers | admin/src/core/module/employee/repositories.py:455-456 | the user accounts the employees point to, exactly |
| EmployeeRepository.SetEnabled | admin/src/core/module/employee/repositories.py:456-468 | switching one account's `enabled` flag leaves every other account as it was |
| EmployeeRepository.Archive | admin/src/core/module/employee/repositories.py:447-458 | succeeds iff the employee exists and is not archived; then it is archived and inactive, its linked account (if any) is disabled, and nothing else changes; a refusal changes nothing |
| EmployeeRepository.Recover | admin/src/core/module/employee/repositories.py:460-470 | succeeds iff the employee is archived; then the flag is cleared and the linked account enabled; `is_active` is not restored; a refusal changes nothing |
| EmployeeRepository.RecoverAfterArchiveLeavesInactive | admin/src/core/module/employee/repositories.py:447-470 | archive then recover brings the employee back inactive, with its account enabled |
| EmployeeRepository.Delete | admin/src/core/module/employee/repositories.py:472-489 | succeeds iff the employee exists and either it has no stored (non-link) documents or their batch deletion succeeded; then the row is removed; the object names sent for deletion are exactly its non-link document paths |
| EmployeeRepository.DeleteKeepsOnStorageFailure | admin/src/core/module/employee/repositories.py:479-485 | when the storage deletion fails and the employee has a stored document, the employee is kept and the call fails |
| EmployeeRepository.LinkAccount | admin/src/core/module/employee/repositories.py:555-563 | succeeds iff the employee exists; then only its account link changes, to the account given (or none) |
| EmployeeRepository.LinkAccountLinks | admin/src/core/module/employee/repositories.py:555-563 | after linking an account, it is among the linked accounts |
| EmployeeRepository.ToggledActivation | admin/src/core/module/employee/repositories.py:565-571 | flips `is_active`, returns the new value, and changes nothing else |
| EmployeeRepository.ToggledActivationTwice | admin/src/core/module/employee/repositories.py:565-571 | toggling twice restores the store |
| EmployeeRepository.IsEmployeeActive | admin/src/core/module/employee/repositories.py:573-579 | false for a falsy id without a lookup; otherwise the employee's `is_active` |
| EmployeeRepository.CountWhere | admin/src/core/module/employee/repositories.py:653-654 | the count of rows whose column equals the id; zero iff no row has it |
| EmployeeRepository.CountIdInChargesAndPayments | admin/src/core/module/employee/repositories.py:649-655 | the charges naming the employee plus the payments to it as beneficiary; zero iff neither kind names it |
| EmployeeRepository.CountWhereAppend | admin/src/core/module/employee/repositories.py:653-654 | counting is additive over concatenated rows |
| EmployeeRepository.GetActiveEmployees | admin/src/core/module/employee/repositories.py:581-596 | exactly the active, non-archived employees, restricted to the named positions when any are given and to the search when it is non-empty |
| EmployeeRepository.PositionValues | admin/src/core/module/employee/repositories.py:590 | the position members whose names are listed |
| EmployeeRepository.KeepMatching | admin/src/core/module/employee/repositories.py:591-595 | keeps exactly the rows the search predicate accepts |
| EmployeeRepository.LinkedTo | admin/src/core/module/employee/repositories.py:612-633 | the employee ids linked to the named horse, exactly |
| EmployeeRepository.TrainersOfHorseOnly | admin/src/core/module/employee/repositories.py:609-625 | with a truthy `only_horse_id`, exactly the employees linked to that horse, with no position filter and no ordering |
| EmployeeRepository.TrainersNotOfHorse | admin/src/core/module/employee/repositories.py:627-643 | with a truthy `not_horse_id` and no `only_horse_id`: an employee is listed iff it is stored, is a driver or horse trainer, is not linked to that horse and is selected by the rest of the search |
| EmployeeRepository.UnlinkedTrainers | admin/src/core/module/employee/repositories.py:627-638 | before `apply_filters`, the exclude mode keeps exactly the stored drivers and horse trainers not linked to the horse |
| EmployeeRepository.GetPaginatedTrainers | admin/src/core/module/employee/repositories.py:598-648 | with a truthy `only_horse_id`: exactly the stored employees linked to that horse, whatever their position, with no ordering; otherwise exactly the stored drivers and horse trainers that the search selects, minus those linked to a truthy `not_horse_id`, ordered by the requested clauses on known columns |
| EmployeeRepository.ConductorNamed | admin/src/core/module/employee/repositories.py:386 | `PositionEnum["CONDUCTOR"]` is the third job position |
| EmployeeRepository.HorseTrainerNamed | admin/src/core/module/employee/repositories.py:387 | `PositionEnum["ENTRENADOR_CABALLOS"]` is the seventh job position |
| EmployeeRepository.IsEmailUsed | admin/src/core/module/employee/repositories.py:491-494 | true iff some employee, archived or not, has the email |
| EmployeeRepository.IsDniUsed | admin/src/core/module/employee/repositories.py:496-499 | true iff some employee, archived or not, has the DNI |
| Queries.ItemGet | admin/src/core/module/jockey_amazon/repositories.py:600 | `d.get(k)` on a dictionary: a non-`None` result is the item stored under `k`; a key no item has gives `None` |
| Queries.RemoveItem | admin/src/core/module/publication/repositories.py:178-183 | `d.pop(k)`: every item but the one under `k` is kept |
| Queries.SetItem | admin/src/core/module/jockey_amazon/repositories.py:601 | `d[k] = v`: afterwards `k` holds `v`, and the other items are exactly those before |
| Queries.ForceFilter | admin/src/core/module/jockey_amazon/repositories.py:600-603 | forcing a filter keeps the text search and its field as the caller gave them |
| Queries.ForcedFilterHolds | admin/src/core/module/jockey_amazon/repositories.py:600-605 | whatever the caller's filters, every row returned after forcing `k = v` on a known column has `v` in that column |
| Queries.ForcedFilterKeepsOthers | admin/src/core/module/jockey_amazon/repositories.py:600-603 | forcing one filter keeps the caller's other filters in force |
| Queries.Bound | admin/src/core/module/common/repositories.py:8 | the parameter as the database reads it against a column: a member's name stands for that member, an ISO day text for that day's first second, and anything else is itself |
| Queries.EnumNameEquals | admin/src/core/module/common/repositories.py:8 | an enumeration column equals a name parameter iff the stored member has that name |
| Queries.NameSelectsMember | admin/src/core/module/common/repositories.py:8 | within an enumeration whose names are distinct, filtering by a member's name keeps exactly the rows holding that member |
| Queries.PlainEquals | admin/src/core/module/common/repositories.py:8 | a parameter that is not text is equal to a column value iff it is that value |
| Queries.IsoBounds | admin/src/core/module/publication/repositories.py:177-182 | an ISO date text compares with a date column as the instant it names, for each of `>`, `<`, `>=`, `<=` and `=` |
| Queries.IsoTextBounds | admin/src/core/module/publication/repositories.py:177-182 | the text `date.isoformat()` gives compares as the first second of that date |
| Queries.NonIsoTextBoundsNothing | admin/src/core/module/publication/repositories.py:177-182 | a text that names no date satisfies no comparison with a date column |
| Queries.FiltersMatchByItems | admin/src/core/module/common/repositories.py:3-8 | the equality filters depend only on which items the dictionary holds, not on their order |
| Queries.NameFilterSelects | admin/src/core/module/common/repositories.py:4-8 | a one-item filter naming an enumeration member on a known enum column (as the employee, equestrian and charge pages pass their profession, `ja_type` and method) keeps a row iff it holds exactly that member |
| Calendar.YearLength | admin/src/core/module/publication/repositories.py:177 | the day count of the years before `y + 1` exceeds that of the years before `y` by 366 in a leap year and 365 otherwise |
| Calendar.DayNumberOrdered | admin/src/core/module/publication/repositories.py:177-182 | day numbers order valid dates exactly as the calendar does, and two valid dates share a number iff they are the same date |
| Calendar.UnixEpoch | admin/src/core/module/publication/repositories.py:177 | 1 January 1970 is day 719162 counted from 1 January of year 1 |
| Calendar.PaddedValue | admin/src/web/controllers/api/publications.py:43 | a number below `10^width` is read back from its zero-padded digits |
| Calendar.IsoText | admin/src/web/controllers/api/publications.py:43 | `date.isoformat()` is ten characters with dashes at positions 4 and 7 |
| Calendar.IsoDate | admin/src/core/module/publication/repositories.py:177-182 | an ISO day text names an instant that falls on a day boundary; any other text names none |
| Calendar.IsoRoundTrip | admin/src/web/controllers/api/publications.py:43-49 | the ISO text of a valid date names that date's first second |
| JockeyRepository.WithSlot | admin/src/core/module/jockey_amazon/repositories.py:773-778 | writing one slot of a work assignment leaves the other slots alone |
| JockeyRepository.EmployeeSlot | admin/src/core/module/jockey_amazon/repositories.py:772-779 | the position dispatch never targets the horse slot |
| JockeyRepository.UnlinkSlot | admin/src/core/module/jockey_amazon/repositories.py:815-824 | `"Horse"` selects the horse slot; any other link uses the same dispatch as assigning |
| JockeyRepository.SetSlot | admin/src/core/module/jockey_amazon/repositories.py:773-842 | writing a slot changes only that slot of that jockey's assignment |
| JockeyRepository.GetById | admin/src/core/module/jockey_amazon/repositories.py:411-425 | the stored jockey, or `None` when absent |
| JockeyRepository.Archive | admin/src/core/module/jockey_amazon/repositories.py:445-460 | succeeds iff the jockey exists and is not deleted; then only its `is_deleted` changes, to true; a refusal changes nothing |
| JockeyRepository.Recover | admin/src/core/module/jockey_amazon/repositories.py:462-477 | succeeds iff the jockey is deleted; then only its flag is cleared |
| JockeyRepository.RecoverUndoesArchive | admin/src/core/module/jockey_amazon/repositories.py:445-477 | recovering an archived jockey restores the store exactly |
| JockeyRepository.ArchiveTwiceRefused | admin/src/core/module/jockey_amazon/repositories.py:456-457 | a second archive is refused |
| JockeyRepository.ToggleDebtorStatus | admin/src/core/module/jockey_amazon/repositories.py:632-647 | succeeds iff the jockey exists; flips `has_debts` and changes nothing else |
| JockeyRepository.ToggleDebtorTwice | admin/src/core/module/jockey_amazon/repositories.py:632-647 | toggling twice restores the store |
| JockeyRepository.AssignEmployee | admin/src/core/module/jockey_amazon/repositories.py:755-781 | succeeds iff the jockey exists and the position is dispatched; then exactly the dispatched slot takes the employee |
| JockeyRepository.UnassignEmployee | admin/src/core/module/jockey_amazon/repositories.py:801-827 | succeeds iff the jockey exists and the link is dispatched (or `"Horse"`); then exactly that slot is cleared |
| JockeyRepository.AssignHorse | admin/src/core/module/jockey_amazon/repositories.py:783-799 | sets only the horse slot of a present jockey |
| JockeyRepository.UnassignHorse | admin/src/core/module/jockey_amazon/repositories.py:829-844 | clears only the horse slot of a present jockey |
| JockeyRepository.AssignEmployeeDispatch | admin/src/core/module/jockey_amazon/repositories.py:772-779 | riding teachers and therapists go to the professor-or-therapist slot, track assistants to the track-assistant slot, drivers to the driver slot; every other position is refused with no change |
| JockeyRepository.UnassignAfterAssign | admin/src/core/module/jockey_amazon/repositories.py:772-824 | unassigning the position just assigned empties that slot and leaves the others as they were before the assignment |
| JockeyRepository.CopyAttributes | admin/src/core/module/jockey_amazon/repositories.py:664-667 | every key of the request that is a school attribute is copied; every other attribute keeps its value |
| JockeyRepository.UpdateSchoolInformation | admin/src/core/module/jockey_amazon/repositories.py:649-678 | succeeds iff the jockey exists; its school takes the known attributes of the request, and the grade and observations change only when their key is present |
| JockeyRepository.UpdateSchoolKeepsAbsent | admin/src/core/module/jockey_amazon/repositories.py:669-674 | absent keys leave the grade, the observations and the unnamed school attributes alone |
| JockeyRepository.GetFilePage | admin/src/core/module/jockey_amazon/repositories.py:575-605 | every document listed is a stored file of that jockey, whatever filters the caller passed, ordered by the requested clauses on known columns |
| JockeyRepository.IsDniUsed | admin/src/core/module/jockey_amazon/repositories.py:743-753 | true iff some jockey, deleted or not, has the DNI |
| JockeyRepository.Delete | admin/src/core/module/jockey_amazon/repositories.py:479-503 | the existence guard tests a query object, which is always truthy, so a missing id is not refused; the call fails only when stored objects exist and their batch deletion fails; otherwise the row goes |
| JockeyRepository.DeleteMissingSucceeds | admin/src/core/module/jockey_amazon/repositories.py:489-491 | deleting an id no jockey has reports success and changes nothing |
| UserRepository.GetById | admin/src/core/module/user/repositories.py:329-339 | the stored user, or `None` when absent |
| UserRepository.FirstWithEmail | admin/src/core/module/user/repositories.py:361-371 | `.first()` answers a user exactly when the email is in use, and then one holding it |
| UserRepository.FirstWithEmailExists | admin/src/core/module/user/repositories.py:371 | every store has an admissible answer to the email query |
| UserRepository.FirstWithEmailUnique | admin/src/core/module/user/repositories.py:371 | with a single user holding the email, the answer is that user |
| UserRepository.Archive | admin/src/core/module/user/repositories.py:411-427 | succeeds iff the user exists, is not a system administrator and is not archived; then it is archived and disabled and nothing else changes |
| UserRepository.Recover | admin/src/core/module/user/repositories.py:429-445 | succeeds iff the user is archived; then it is un-archived and enabled |
| UserRepository.RecoverAfterArchive | admin/src/core/module/user/repositories.py:411-445 | archive then recover restores the user, enabled, whatever its flag was before |
| UserRepository.IsSysAdmin | admin/src/core/module/user/repositories.py:464-477 | false for a falsy id without a lookup; otherwise the user's administrator flag |
| UserRepository.IsUserEnabled | admin/src/core/module/user/repositories.py:479-492 | false for a falsy id without a lookup; otherwise the user's `enabled` flag |
| UserRepository.ToggleActivation | admin/src/core/module/user/repositories.py:447-462 | refused (with no change) for a system administrator; otherwise `enabled` is flipped and nothing else changes |
| UserRepository.ToggleActivationTwice | admin/src/core/module/user/repositories.py:447-462 | toggling twice restores the store |
| UserRepository.AdministratorsStay | admin/src/core/module/user/repositories.py:422-457 | a system administrator can be neither archived nor deactivated |
| UserRepository.CanBeLinked | admin/src/core/module/user/repositories.py:503-519 | the id of the user found for the email, iff one is found and no employee points to it; otherwise `None` |
| UserRepository.CanBeLinkedUniqueEmail | admin/src/core/module/user/repositories.py:503-519 | with one user per email the answer is that user's id unless it is already linked |
| UserRepository.GetActiveUsers | admin/src/core/module/user/repositories.py:304-327 | exactly the enabled users no employee points to, narrowed by the search when it is non-empty |
| UserRepository.ChangeProfilePhoto | admin/src/core/module/user/repositories.py:525-540 | refused for a missing user; a user with a photo has its URL overwritten (when the photo exists); a user without one gets a new photo with the URL |
| UserRepository.ChangedPhotoShowsUrl | admin/src/core/module/user/repositories.py:525-540 | after a successful change the user's photo shows the new URL |
| UserRepository.Update | admin/src/core/module/user/repositories.py:373-392 | reports success even for a missing user (the guard tests a query object); the photo changes only when the URL is not `None`; the URL key is dropped and the rest written to the user's row; no other user changes |
| PublicationRepository.GetById | admin/src/core/module/publication/repositories.py:203-214 | the publication, or `None` when absent |
| PublicationRepository.DeletePublication | admin/src/core/module/publication/repositories.py:234-249 | refused for a missing id; otherwise exactly that row is removed |
| PublicationRepository.LogicalDelete | admin/src/core/module/publication/repositories.py:251-268 | a missing id returns false and changes nothing; for every stored publication the read of the undeclared `is_deleted` raises `AttributeError` |
| PublicationRepository.LogicalDeleteDeclared | admin/src/core/module/publication/repositories.py:251-268 | with `is_deleted` declared: succeeds iff the publication exists and is not deleted; then it is deleted and ARCHIVED and no other publication changes |
| PublicationRepository.RecoverPublication | admin/src/core/module/publication/repositories.py:270-287 | a missing id returns false and changes nothing; for every stored publication the read of the undeclared `is_deleted` raises `AttributeError` |
| PublicationRepository.RecoverPublicationDeclared | admin/src/core/module/publication/repositories.py:270-287 | with `is_deleted` declared: succeeds iff the publication is deleted; then it is restored as a DRAFT, whatever its status before |
| PublicationRepository.DeleteRaisesWhereDeclaredArchives | admin/src/core/module/publication/repositories.py:262 | on a stored published publication the code as written raises, where the declared column would archive it, and recovering then raises too |
| PublicationRepository.RecoverGivesDraft | admin/src/core/module/publication/repositories.py:251-287 | with `is_deleted` declared, a publication deleted and recovered comes back as a draft, not with its earlier status |
| PublicationRepository.SplitDateRange | admin/src/core/module/publication/repositories.py:173-183 | `start_date` and `end_date` are taken out of the filters, which keep every other item; the text search is untouched |
| PublicationRepository.GetPageStrictBounds | admin/src/core/module/publication/repositories.py:173-185 | both date bounds are strict: every listed publication is dated strictly after the start and strictly before the end, each bound read against the column as the database reads it |
| PublicationRepository.GetPageWithoutDates | admin/src/core/module/publication/repositories.py:173-185 | without date keys the page is exactly `apply_filters` on the publications |
| PublicationRepository.GetPage | admin/src/core/module/publication/repositories.py:150-189 | a publication is listed iff it is stored, meets the date bounds split off the search and is selected by the remaining search; ordered by the requested clauses on known columns |
| PublicationRepository.ApiConditions | admin/src/core/module/publication/repositories.py:175-183 | the articles API's two day texts become exactly the conditions `publish_date > from` and `publish_date < to`, in that order |
| PublicationRepository.ApiLeftover | admin/src/core/module/publication/repositories.py:178-183 | after the date keys are popped, the articles API's search holds only the status item and no text |
| PublicationRepository.ApiRowDates | admin/src/core/module/publication/repositories.py:175-183 | a publication meets the API's date conditions iff its timestamp lies strictly between the instants the two ISO texts name |
| PublicationRepository.ApiRowStatus | admin/src/web/controllers/api/publications.py:53 | a publication passes the status filter `PUBLISHED` (a member's name) iff its status is the member `PUBLISHED` |
| PublicationRepository.ApiPage | admin/src/web/controllers/api/publications.py:41-54 | the articles API with `published_from` and `published_to` lists a stored publication iff its timestamp is after the first second of the first day and before the first second of the second, and it is published |
| PaymentRepository.GetById | admin/src/core/module/payment/repositories.py:211-214 | the payment, or `None` when absent |
| PaymentRepository.ArchivePayment | admin/src/core/module/payment/repositories.py:224-230 | succeeds iff the payment exists and is not archived; then only its flag is set |
| PaymentRepository.UnarchivePayment | admin/src/core/module/payment/repositories.py:232-238 | succeeds iff the payment is archived; then only its flag is cleared |
| PaymentRepository.ArchiveUnarchiveInverse | admin/src/core/module/payment/repositories.py:224-238 | archiving and un-archiving undo each other, in either order |
| PaymentRepository.Delete | admin/src/core/module/payment/repositories.py:240-246 | refused for a missing id; otherwise exactly that row is removed |
| PaymentRepository.PageConditions | admin/src/core/module/payment/repositories.py:193-201 | at most the four filters the page reads |
| PaymentRepository.OrderKeys | admin/src/core/module/payment/repositories.py:204-207 | one clause per pair, in list order |
| PaymentRepository.GetPage | admin/src/core/module/payment/repositories.py:183-209 | the ordering clauses are exactly those of `order_by`, in order |
| PaymentRepository.GetPageRows | admin/src/core/module/payment/repositories.py:193-201 | the page lists exactly the payments dated within both bounds, inclusive, whose type and archive flag equal those asked for as the database reads the parameters (a type name stands for its member); absent keys impose nothing |
| PaymentRepository.TypeNameFilter | admin/src/web/controllers/payment.py:41-47 | the index page passes the payment type as its name and `is_archived = False`: a stored payment is listed iff it holds exactly that type member and is not archived |
| PaymentRepository.BoundsInclusive | admin/src/core/module/payment/repositories.py:194-197 | a payment dated exactly on both bounds is listed |
| PaymentRepository.EmptySearchListsAll | admin/src/core/module/payment/repositories.py:193-209 | an empty search with no ordering lists every payment |
| EquestrianRepository.TrainersOf | admin/src/core/module/equestrian/repositories.py:97-99 | the employees linked to a horse, exactly |
| EquestrianRepository.TrainersOfAppend | admin/src/core/module/equestrian/repositories.py:97-99 | reading links is additive over concatenated link tables |
| EquestrianRepository.DropHorse | admin/src/core/module/equestrian/repositories.py:105 | the bulk delete keeps exactly the links of the other horses |
| EquestrianRepository.DropHorseTrainers | admin/src/core/module/equestrian/repositories.py:105 | after the bulk delete the horse has no trainer, and every other horse keeps its trainers in order |
| EquestrianRepository.NewLinks | admin/src/core/module/equestrian/repositories.py:106-107 | one new link per trainer id, in the order given |
| EquestrianRepository.NewLinksTrainers | admin/src/core/module/equestrian/repositories.py:106-107 | the new links give the horse exactly the listed trainers and no other horse any |
| EquestrianRepository.SetHorseTrainers | admin/src/core/module/equestrian/repositories.py:104-108 | afterwards the horse's trainers are exactly the list given, one link per element; every other horse keeps its trainers |
| EquestrianRepository.SetHorseTrainersIdempotent | admin/src/core/module/equestrian/repositories.py:104-108 | setting the same trainers twice is setting them once |
| EquestrianRepository.TrainerIdValues | admin/src/core/module/equestrian/repositories.py:102 | the ids the `IN` condition compares against are the employees linked to the horse |
| EquestrianRepository.GetTrainersOfHorse | admin/src/core/module/equestrian/repositories.py:96-102 | exactly the employees whose id appears in a link of the horse |
| EquestrianRepository.TrainersReadBack | admin/src/core/module/equestrian/repositories.py:96-108 | after setting a horse's trainers, reading them back gives exactly the employees with those ids |
| EquestrianRepository.GetById | admin/src/core/module/equestrian/repositories.py:74-75 | the horse, or `None` when absent |
| EquestrianRepository.Delete | admin/src/core/module/equestrian/repositories.py:85-91 | always reports success (the guard tests a query object); the horse, if any, and its trainer links go; other horses keep theirs |
| EquestrianRepository.DeleteMissingReportsSuccess | admin/src/core/module/equestrian/repositories.py:86-91 | deleting a horse that does not exist reports success and changes no horse |
| Auth.GetRole | admin/src/core/module/auth/repositories.py:74-84 | a role found has the id asked for; `None` iff no role has it |
| Auth.GetRoleUnique | admin/src/core/module/auth/repositories.py:84 | with unique role ids the role found is the one with that id |
| Auth.GrantedIds | admin/src/core/module/auth/repositories.py:105 | the permission ids the link table pairs with the role, exactly; no role matches no row |
| Auth.WithIds | admin/src/core/module/auth/repositories.py:106-107 | the permissions whose id is listed, in table order |
| Auth.PermissionsOfRole | admin/src/core/module/auth/repositories.py:95-107 | exactly the permissions whose id the link table pairs with the role |
| Auth.NoLinksNoPermissions | admin/src/core/module/auth/repositories.py:105-107 | a role with no link rows, or no role at all, yields an empty list |
| Auth.Names | admin/src/core/module/auth/services.py:186 | the permission names, one per permission, in order |
| Auth.PermissionsOf | admin/src/core/module/auth/services.py:172-186 | `["NO_PERMISSIONS"]` for an unknown user; otherwise exactly the names of the permissions linked to its role |
| Auth.HasPermissions | admin/src/core/module/auth/services.py:188-204 | a system administrator has every permission; a disabled non-administrator none; an empty requirement list is refused to anyone but an administrator |
| Auth.HasPermissionsIsJoin | admin/src/core/module/auth/services.py:199-204 | for an enabled ordinary user, granted iff some required name belongs to a permission linked to the user's role (any, not all) |
| Auth.JoinGrants | admin/src/core/module/auth/services.py:203-204 | one linked permission among the required names is enough |
| Auth.JoinDenies | admin/src/core/module/auth/services.py:201-204 | with no linked permission among the required names the user is refused |
| Auth.NoRoleNoPermissions | admin/src/core/module/auth/services.py:185-204 | a user without a role is granted nothing unless an administrator |
| Auth.ValidateEmail | admin/src/core/module/auth/services.py:119-130 | true iff some user has the email |
| Auth.Authenticate | admin/src/core/module/auth/services.py:132-149 | a user is returned only when one is found, enabled, with exactly that email and a matching password; a missing or disabled user gives `None` |
| Auth.SeedVolunteerHasNothing | admin/src/core/seeds.py:86-135 | in the seeded tables the volunteer role has no permission |
| Auth.SeedEquestrianShowsRiders | admin/src/core/seeds.py:112-113 | in the seeded tables an enabled equestrian user may show riders |
| Auth.SeedEquestrianCannotEditRiders | admin/src/core/seeds.py:100-113 | in the seeded tables an equestrian user may neither create nor delete riders |
| StorageServices.ConstructPath | admin/src/core/module/common/services.py:344-354 | the result starts with the directory and ends with the name, a `/` comes right before the name, and a `/` is added only when the directory does not end with one |
| StorageServices.ConstructPathSeparator | admin/src/core/module/common/services.py:354 | the name always sits right after a `/`, preceded by the directory with at most one `/` added |
| StorageServices.ConstructPathEmptyDirectory | admin/src/core/module/common/services.py:354 | an empty directory gives `/` followed by the name |
| StorageServices.UploadBatch | admin/src/core/module/common/services.py:221-236 | a non-list gives `{}`; a list uploads only files that are truthy and have a non-blank name |
| StorageServices.SentNames | admin/src/core/module/common/services.py:233-235 | every name sent belongs to a sendable file of the batch |
| StorageServices.SentNamesAppend | admin/src/core/module/common/services.py:233-235 | the uploads keep the caller's order: a batch's uploads are those of its parts, concatenated |
| StorageServices.SentNamesAll | admin/src/core/module/common/services.py:233-235 | a batch with no sendable file uploads nothing; a batch of sendable files uploads each one, in order |
| StorageServices.StoredPaths | admin/src/core/module/employee/repositories.py:479-480 | the paths of the owner's documents that are not links, exactly |
| Enums.EnumChoices | admin/src/core/module/jockey_amazon/extras/forms.py:56-69 | one (name, value) pair per member in definition order, after the first pair when one is given; the length is the member count, plus one with a first pair |
| Enums.ChoicesRoundTrip | admin/src/core/module/jockey_amazon/extras/forms.py:69 | the name in a choice looks up the member it came from |
| Validators.MessageOr | admin/src/core/module/common/validators.py:17-19 | a non-empty message given is kept; an absent or empty one falls back to the default |
| Validators.NewFilesNumber | admin/src/core/module/common/validators.py:14-19 | keeps both bounds; the default message names them |
| Validators.FileCount | admin/src/core/module/common/validators.py:31-33 | no data counts as zero files; a list counts its items |
| Validators.CheckFiles | admin/src/core/module/common/validators.py:21-37 | passes or fails with the validator's own message, nothing else |
| Validators.FilesNumberWithinBounds | admin/src/core/module/common/validators.py:34-37 | with both bounds enabled, passes iff min <= count <= max |
| Validators.FilesNumberUnbounded | admin/src/core/module/common/validators.py:9-36 | bounds of -1 accept every count |
| Validators.FilesNumberNoneIsEmpty | admin/src/core/module/common/validators.py:32-33 | no data is judged exactly as an empty list |
| Validators.NewIsNumber | admin/src/core/module/common/validators.py:48-51 | the message defaults to "Debe ser un numero" |
| Validators.CheckIsNumber | admin/src/core/module/common/validators.py:53-64 | passes iff the text is non-empty and every character a decimal digit; fails with the validator's message |
| Validators.IsNumberDecimalText | admin/src/core/module/common/validators.py:63-64 | the decimal text of an integer passes iff the integer is not negative |
| Validators.CheckExistence | admin/src/core/module/employee/validators.py:52-60 | the repository is consulted iff the form's current value differs from the one entered; fails iff consulted and the value is taken |
| Validators.ExistenceIgnoresOwnCurrent | admin/src/core/module/employee/validators.py:53-55 | the validator's own stored current value never affects the outcome; only the form's does |
| Validators.UnchangedEditPasses | admin/src/core/module/employee/validators.py:53-56 | editing without changing the value passes without a lookup |
| Validators.NewEmployeeEmailExistence | admin/src/core/module/employee/validators.py:46-50 | the message defaults to "Email en uso" |
| Validators.NewEmployeeDniExistence | admin/src/core/module/employee/validators.py:78-82 | the message defaults to "DNI en uso" |
| Validators.NewUserEmailExistence | admin/src/core/module/user/validators.py:13-24 | the message defaults to "Email is used" |
| Validators.NewJockeyDniExistence | admin/src/core/module/jockey_amazon/validators.py:5-9 | the message defaults to "DNI en uso" |
| Validators.EmployeeEmailCheck | admin/src/core/module/employee/validators.py:52-60 | fails iff the value changed and some stored employee already has the e-mail |
| Validators.EmployeeDniCheck | admin/src/core/module/employee/validators.py:84-92 | fails iff the value changed and some stored employee already has the DNI |
| Validators.JockeyDniCheck | admin/src/core/module/jockey_amazon/validators.py:11-19 | fails iff the value changed and some stored rider already has the DNI |
| Validators.UserEmailCheck | admin/src/core/module/user/validators.py:26-44 | fails iff the value changed and some user has the e-mail, as the authentication service reports it |
| Validators.UserCreationConsults | admin/src/core/module/user/validators.py:37-42 | on creation the service is always consulted |
| Forms.MaxFileSize | admin/src/core/module/common/forms.py:13-27 | a whole number of mebibytes: the result divided by 1048576 gives back the size in megabytes, with no remainder |
| Forms.UploadLimit | admin/src/core/module/common/forms.py:118-121 | the document upload is accepted iff it is at most 5242880 bytes; a larger one gets "El archivo es demasiado grande" |
| Forms.FormattedFiletypes | admin/src/core/module/common/forms.py:85 | the list ends in " y ." and the last extension; an empty list is refused |
| Forms.Dotted | admin/src/core/module/common/forms.py:85 | each extension gets a leading dot, order and count kept |
| Forms.FiletypesMessageText | admin/src/core/module/common/forms.py:84-86 | the message shown lists the five allowed extensions in order |
| Forms.ValidateDocuments | admin/src/core/module/common/forms.py:139-164 | the field validators decide first; a file upload then needs a new or already stored file, a URL upload a URL; a failure adds exactly one message to the blamed field, and the verdict is false iff a message was added or the field validators failed |
| Forms.DocumentsFileAlreadyUploaded | admin/src/core/module/common/forms.py:155-158 | a stored file lets a file upload without a new file pass; without one it fails on the file field |
| Forms.ValidatePublicationSearch | admin/src/core/module/publication/forms.py:72-93 | passes iff a date is missing or start <= end; a failure resets the start field's errors to the one message |
| Forms.PublicationSearchIgnoresText | admin/src/core/module/publication/forms.py:72-93 | the search text plays no part in the verdict |
| Forms.ValidateChargeSearch | admin/src/core/module/charges/forms.py:43-64 | passes iff both dates or neither are given and they are in order; each failure resets the blamed field's errors to one message |
| Forms.AsList | admin/src/core/module/report/forms.py:74-77 | tuple errors become a list with the same items |
| Forms.ValidateReportSearch | admin/src/core/module/report/forms.py:64-89 | errors end up as lists; passes iff both dates or neither and in order; each failure appends one message to the blamed field |
| Forms.SearchFormsAgree | admin/src/core/module/charges/forms.py:43-64 | the two charge search forms accept the same ranges; whatever they accept the publication search accepts too, and a lone date only the publication search |
| Forms.Tens | admin/src/core/module/report/forms.py:61 | the count of multiples of ten in `range(1, n // 10 + 1)`: n / 10 for n >= 0, none below |
| Forms.LimitChoices | admin/src/core/module/report/forms.py:50-62 | no or zero `max` keeps the default choices; otherwise the multiples of ten up to n, then n |
| Forms.LimitChoicesEnds | admin/src/core/module/report/forms.py:61-62 | a multiple of ten is offered twice at the end; below ten only n is offered |
| Forms.ValidateCheckboxes | admin/src/core/module/jockey_amazon/extras/forms.py:37-53 | valid iff the field validators pass and at least one box is checked; that failure alone appends its message |
| Forms.ValidateFamily | admin/src/core/module/jockey_amazon/forms.py:167-182 | as written: with a clean first member and a falsy `is_optional`, the call to the second member's `validate()` without `form` raises `TypeError`; otherwise valid iff the first member has no errors, whatever the base validation says |
| Forms.FamilyIgnoresBaseResult | admin/src/core/module/jockey_amazon/forms.py:170 | the base validation's verdict never changes the outcome |
| Forms.FamilySkipsFilledSecondMember | admin/src/core/module/jockey_amazon/forms.py:175-177 | a second member flagged "False", as the page sends it and as the mapper saves it, is skipped, so an invalid one passes; a `False` flag raises `TypeError` |
| Forms.ValidateFamilyIntended | admin/src/core/module/jockey_amazon/mappers.py:280-281 | valid iff the first member has no errors and a second member the mapper will save validates |
| Forms.FamilyIntendedChecksFilledSecond | admin/src/core/module/jockey_amazon/mappers.py:280-281 | the intended validation rejects the filled-in, invalid second member and still skips an empty one |
| Forms.GeneralInfoToFlat | admin/src/core/module/jockey_amazon/forms.py:111-130 | exactly the fifteen flat keys |
| Forms.GeneralFlatNumbers | admin/src/core/module/jockey_amazon/forms.py:118-124 | `number` is the street number and `phone` the telephone number, kept apart |
| Forms.GeneralFlatPersonal | admin/src/core/module/jockey_amazon/forms.py:113-122 | personal and address fields keep their names and values |
| Forms.GeneralFlatEmergency | admin/src/core/module/jockey_amazon/forms.py:125-126 | the emergency-contact fields keep their names and values |
| Forms.GeneralFlatPhoneCodes | admin/src/core/module/jockey_amazon/forms.py:122-123 | the phone codes keep their names and values |
| Forms.FamilyInfoToFlat | admin/src/core/module/jockey_amazon/forms.py:183-208 | assignment type only with the assignment box ticked, pension type and details only with the pension box ticked, otherwise `None`; the members as given |
| Forms.HealthInfoToFlat | admin/src/core/module/jockey_amazon/forms.py:260-273 | the eight health fields under their own names |
| Forms.SchoolInfoToFlat | admin/src/core/module/jockey_amazon/forms.py:300-318 | the school sub-form nested with `school_name` renamed `name`; grade and observations beside it |
| Forms.SchoolFormUpdatesSchool | admin/src/core/module/jockey_amazon/repositories.py:649-675 | saving the flat school form renames the rider's school and sets the grade and observations |
| Forms.WorkAssignmentToFlat | admin/src/core/module/jockey_amazon/forms.py:350-366 | the scholarship fields by name and the assignment sub-form nested under `work_assignments` |
| FileMapper.ToForm | admin/src/core/module/common/mappers.py:18-38 | title and tag kept; `upload_type` "url" iff a link; a link's path must split on "://" into exactly two pieces, protocol and host, otherwise the unpacking raises |
| FileMapper.FileFromForm | admin/src/core/module/common/mappers.py:41-69 | title and tag kept; `is_link` iff the upload type is "url", and then a path that is protocol and host concatenated |
| FileMapper.SplitWithout | admin/src/core/module/common/mappers.py:36 | a path without the separator splits into one piece |
| FileMapper.SplitFirst | admin/src/core/module/common/mappers.py:36 | the text before the first separator is the first piece |
| FileMapper.LinkWithoutSeparatorRaises | admin/src/core/module/common/mappers.py:35-36 | a link whose path lacks "://" cannot be put on the form |
| FileMapper.LinkWithTwoSeparatorsRaises | admin/src/core/module/common/mappers.py:35-36 | nor can a link whose path holds "://" twice |
| FileMapper.LinkRoundTripDropsSeparator | admin/src/core/module/common/mappers.py:36-67 | a link put on the form and read back has "protocol://host" turned into "protocolhost" |
| FileMapper.FileRoundTrip | admin/src/core/module/common/mappers.py:30-64 | a stored file put on the form and read back keeps title and tag, is not a link and has no path |
| FileMapper.CreateFile | admin/src/core/module/employee/mappers.py:38-58 | the path, title, link flag, type and size copied, the tag set to the document type |
| FileMapper.TruthyCount | admin/src/core/module/employee/mappers.py:74 | no more than the entries given |
| FileMapper.CreateGroup | admin/src/core/module/employee/mappers.py:73-75 | one file per truthy entry of the group, each tagged with its document type |
| FileMapper.CreateFiles | admin/src/core/module/employee/mappers.py:61-77 | one file per truthy entry over all groups, each tagged |
| FileMapper.CreateGroupAppend | admin/src/core/module/employee/mappers.py:73-75 | entries are taken in order: the files of concatenated entries are the concatenated files |
| FileMapper.CreateGroupSingle | admin/src/core/module/employee/mappers.py:74-75 | a truthy entry yields its file, any other nothing |
| FileMapper.CreateFilesAppend | admin/src/core/module/employee/mappers.py:72-75 | groups are taken in order: the files of concatenated groups are the concatenated files |
| FileMapper.CreateFilesTagged | admin/src/core/module/employee/mappers.py:72-75 | every file created carries the document type of one of the groups |
| FileMapper.Listed | admin/src/core/module/employee/mappers.py:183-185 | with only stored files, one entry per file, in order, each the file's `to_dict` dictionary; `None` entries dropped |
| FileMapper.ToDictShape | admin/src/core/module/common/models.py:47-63 | `File.to_dict` gives exactly the keys id, path, filetype, filesize, title, tag, uploaded_at and is_link; `uploaded_at` is the stored `inserted_at`, the others the columns of the same name |
| FileMapper.ToDictIgnoresOthers | admin/src/core/module/common/models.py:47-63 | a column `to_dict` does not read never changes its dictionary |
| FileMapper.ListedSingle | admin/src/core/module/employee/mappers.py:184-185 | one stored file gives its dictionary, a `None` nothing |
| FileMapper.ListedAppend | admin/src/core/module/employee/mappers.py:184 | files are listed in order: listing concatenated sequences gives the concatenated lists |
| EmployeeMapper.PhonePart | admin/src/core/module/employee/mappers.py:209-211 | the phone codes under their names and the phone number under `phone` |
| EmployeeMapper.FlatForm | admin/src/core/module/employee/mappers.py:191-230 | exactly the twenty-four flat keys |
| EmployeeMapper.FlatFormNumbers | admin/src/core/module/employee/mappers.py:211-220 | `number` is the street number and `phone` the telephone number, kept apart |
| EmployeeMapper.FlatFormTop | admin/src/core/module/employee/mappers.py:206-228 | the top-level fields keep their names and values |
| EmployeeMapper.FlatFormSections | admin/src/core/module/employee/mappers.py:201-225 | the employment, address, emergency-contact and phone fields are lifted from their sections |
| EmployeeMapper.FlatFormMissingSections | admin/src/core/module/employee/mappers.py:201-204 | a missing section leaves each of its keys `None` |
| EmployeeMapper.FlatFormIgnoresOthers | admin/src/core/module/employee/mappers.py:191-230 | no key outside the fields and the four sections affects the flat form |
| EmployeeMapper.ToEntity | admin/src/core/module/employee/mappers.py:80-130 | the columns are exactly the flat form of the data; the documents are those `create_files` builds |
| EmployeeMapper.NoFilesNoDocuments | admin/src/core/module/employee/mappers.py:124-128 | no file groups give no documents |
| EmployeeMapper.Serialised | admin/src/core/module/employee/mappers.py:145-181 | exactly the serialised keys: top-level columns, timestamps and four sections |
| EmployeeMapper.FromEntity | admin/src/core/module/employee/mappers.py:133-188 | with documents, the count of all files and at most the first five listed as `to_dict` dictionaries; without, neither key |
| EmployeeMapper.FilesTruncatedToFive | admin/src/core/module/employee/mappers.py:144-186 | with five or more documents five are listed and the count still reports all |
| EmployeeMapper.SerialisedSections | admin/src/core/module/employee/mappers.py:145-181 | each section holds the entity's columns, the employment enums by value |
| EmployeeMapper.SerialisedFlatTop | admin/src/core/module/employee/mappers.py:145-228 | flattening the serialised entity gives back its top-level columns |
| EmployeeMapper.FlatEmploymentOf | admin/src/core/module/employee/mappers.py:155-218 | the employment columns come back, the enum columns as their values |
| EmployeeMapper.FlatContactOf | admin/src/core/module/employee/mappers.py:150-225 | the address, emergency-contact and phone columns come back, the phone number among them |
| EmployeeMapper.FlatFormIgnoresDocuments | admin/src/core/module/employee/mappers.py:182-186 | the documents `from_entity` adds are invisible to `flat_form` |
| EmployeeMapper.EntityRoundTrip | admin/src/core/module/employee/mappers.py:80-188 | an employee serialised and rebuilt has every column `to_entity` sets, enums as their values, and no documents |
| JockeyMapper.NameOrNone | admin/src/core/module/jockey_amazon/mappers.py:149-157 | a set enum column by name, an unset one `None` |
| JockeyMapper.ValueOrNone | admin/src/core/module/jockey_amazon/mappers.py:170-174 | a set enum column by value, an unset one `None` |
| JockeyMapper.MemberDicts | admin/src/core/module/jockey_amazon/mappers.py:175-178 | one serialised member per stored member |
| JockeyMapper.Sections | admin/src/core/module/jockey_amazon/mappers.py:124-199 | the five sections under their names, the work section under `organization_work` |
| JockeyMapper.Assemble | admin/src/core/module/jockey_amazon/mappers.py:118-123 | the id, timestamps and deletion flag beside the five section names |
| JockeyMapper.FromEntity | admin/src/core/module/jockey_amazon/mappers.py:99-200 | no jockey gives `{}`; a jockey its top-level columns and the five sections, never a `work_assignment_information` key |
| JockeyMapper.FromEntitySections | admin/src/core/module/jockey_amazon/mappers.py:124-199 | each section as built from the entity's columns and nested mappers |
| JockeyMapper.MemberEntries | admin/src/core/module/jockey_amazon/mappers.py:278 | the family entries as read with `family.get("family_members", [])` |
| JockeyMapper.Selected | admin/src/core/module/jockey_amazon/mappers.py:278-284 | no more members than entries, none with an id |
| JockeyMapper.SelectedAppend | admin/src/core/module/jockey_amazon/mappers.py:278-284 | the entries are taken in order: selection distributes over concatenation |
| JockeyMapper.SelectedFromFilled | admin/src/core/module/jockey_amazon/mappers.py:279-283 | every saved member is built from an entry whose `is_optional` lower-cases to "false" |
| JockeyMapper.FilledSelected | admin/src/core/module/jockey_amazon/mappers.py:279-284 | every such filled entry is saved |
| JockeyMapper.GeneralColumns | admin/src/core/module/jockey_amazon/mappers.py:231-245 | exactly the fifteen general columns |
| JockeyMapper.ToEntity | admin/src/core/module/jockey_amazon/mappers.py:203-286 | the deletion flag and the pension columns are never set; the work assignment has every column its mapper reads; the members are exactly the filled entries |
| JockeyMapper.ToEntityParts | admin/src/core/module/jockey_amazon/mappers.py:221-275 | each column group is read from its own section |
| JockeyMapper.FromEntityNotReadable | admin/src/core/module/jockey_amazon/mappers.py:180-268 | a serialised jockey is never data `to_entity` can read: the work section is written as `organization_work` but read as `work_assignment_information` |
| JockeyMapper.Renamed | admin/src/core/module/jockey_amazon/mappers.py:180-225 | the serialised jockey with its work section also under the name `to_entity` reads |
| JockeyMapper.GeneralColumnsOf | admin/src/core/module/jockey_amazon/mappers.py:124-245 | a general section shaped like an entity's gives back its columns, the phone number among them |
| JockeyMapper.GeneralBack | admin/src/core/module/jockey_amazon/mappers.py:124-245 | the serialised general section gives back the general columns |
| JockeyMapper.HealthBack | admin/src/core/module/jockey_amazon/mappers.py:147-255 | the health section gives back the plain health columns, and the enum columns by name |
| JockeyMapper.SchoolBack | admin/src/core/module/jockey_amazon/mappers.py:189-260 | the school section gives back the grade, the observations and the institution |
| JockeyMapper.FamilyBack | admin/src/core/module/jockey_amazon/mappers.py:163-264 | the family section gives back the family-assignment columns, its type by value |
| JockeyMapper.FamilyMembersSerialised | admin/src/core/module/jockey_amazon/mappers.py:175-178 | the family section lists every member as its mapper serialises it |
| JockeyMapper.WorkBack | admin/src/core/module/jockey_amazon/mappers.py:180-188 | the work section holds the scholarship fields and the serialised assignment |
| JockeyMapper.RenamedSections | admin/src/core/module/jockey_amazon/mappers.py:118-200 | the sections of the renamed serialised jockey, as built from the entity |
| JockeyMapper.RenamedRoundTrip | admin/src/core/module/jockey_amazon/mappers.py:99-286 | with the section name fixed, a jockey without family members comes back with its top-level, general and health columns |
| JockeyMapper.RenamedDefined | admin/src/core/module/jockey_amazon/mappers.py:221-284 | with the section name fixed and no members, the serialised jockey is readable and yields no entries |
| JockeyMapper.RenamedRoundTripRelations | admin/src/core/module/jockey_amazon/mappers.py:99-286 | and its school, family assignment, scholarship and work assignment, with no members |
| JockeyMapper.SerialisedMemberUnreadable | admin/src/core/module/jockey_amazon/mappers.py:280-281 | a serialised member carries no `is_optional`, so `to_entity` cannot read it |
| JockeyMapper.SerialisedMembersUnreadable | admin/src/core/module/jockey_amazon/mappers.py:278-281 | a jockey with members never reads back, even with the section name fixed |
| JockeyMapper.UnvalidatedMemberSaved | admin/src/core/module/jockey_amazon/forms.py:175-177 | a second member flagged "False" passes the family validation unchecked and is saved by the mapper |
| JockeyExtrasMapper.FamilyFromEntity | admin/src/core/module/jockey_amazon/extras/mappers.py:17-61 | the id and plain columns as stored, the education level by name |
| JockeyExtrasMapper.FamilyToEntity | admin/src/core/module/jockey_amazon/extras/mappers.py:64-93 | every column read with `.get`; never an id |
| JockeyExtrasMapper.FamilyRoundTrip | admin/src/core/module/jockey_amazon/extras/mappers.py:17-93 | a member serialised and rebuilt keeps every column but the id, the education level as its name |
| JockeyExtrasMapper.DayValues | admin/src/core/module/jockey_amazon/extras/mappers.py:137 | one value per day |
| JockeyExtrasMapper.AssignmentDict | admin/src/core/module/jockey_amazon/extras/mappers.py:132-142 | exactly the nine assignment keys |
| JockeyExtrasMapper.WorkFromEntity | admin/src/core/module/jockey_amazon/extras/mappers.py:106-143 | no assignment gives `{}`; an assignment its ids as stored, proposal, condition and sede by name and the days by value, in order |
| JockeyExtrasMapper.WorkToEntity | admin/src/core/module/jockey_amazon/extras/mappers.py:146-171 | the nine columns read with `.get`, the id included |
| JockeyExtrasMapper.WorkRoundTrip | admin/src/core/module/jockey_amazon/extras/mappers.py:106-171 | an assignment rebuilt from its serialisation has exactly the serialised values |
| JockeyExtrasMapper.WorkFromNothing | admin/src/core/module/jockey_amazon/extras/mappers.py:130-171 | an empty assignment dictionary builds an assignment with every column `None` |
| JockeyExtrasMapper.SchoolFromEntity | admin/src/core/module/jockey_amazon/extras/mappers.py:183-218 | every column as stored, the name under `school_name` |
| JockeyExtrasMapper.SchoolToEntity | admin/src/core/module/jockey_amazon/extras/mappers.py:221-247 | `school_name` becomes the `name` column, the others read with `.get` |
| JockeyExtrasMapper.SchoolRoundTrip | admin/src/core/module/jockey_amazon/extras/mappers.py:183-247 | an institution serialised and rebuilt keeps every column |
| JockeyExtrasMapper.SchoolDictRoundTrip | admin/src/core/module/jockey_amazon/extras/mappers.py:183-247 | a school dictionary built into an entity and serialised keeps every key |
| ChargeMapper.FromEntity | admin/src/core/module/charges/mappers.py:11-32 | every column as stored, the payment method by value |
| ChargeMapper.ToEntity | admin/src/core/module/charges/mappers.py:35-53 | the seven constructor arguments read with `.get`; never an id or timestamp |
| ChargeMapper.FormFields | admin/src/core/module/charges/mappers.py:56-93 | the four form fields, never who was charged or by whom |
| ChargeMapper.SessionFields | admin/src/core/module/charges/mappers.py:96-133 | the four form fields and the two parties |
| ChargeMapper.SessionRoundTrip | admin/src/core/module/charges/mappers.py:96-133 | storing in the session and reading back changes nothing |
| ChargeMapper.FormRoundTrip | admin/src/core/module/charges/mappers.py:56-93 | filling the form from a form projection or from session data gives the same four fields |
| ChargeMapper.SessionToEntity | admin/src/core/module/charges/mappers.py:35-133 | a charge built from session data has its six fields and no archive flag |
| ChargeMapper.EntityRoundTrip | admin/src/core/module/charges/mappers.py:11-53 | a charge serialised and rebuilt keeps every column `to_entity` sets, the payment method as its value |
| PaymentMapper.ToEntity | admin/src/core/module/payment/mappers.py:18-36 | the five columns read with `.get`; `is_archived` kept when present, `False` when absent |
| PaymentMapper.DecimalText | admin/src/core/module/payment/mappers.py:53 | the text of a two-place decimal: a point three characters from the end |
| PaymentMapper.ParseDecimal | admin/src/core/module/payment/mappers.py:53 | only a text with a point three from the end reads as a two-place decimal |
| PaymentMapper.DigitsOfNat | admin/src/core/module/payment/mappers.py:53 | the decimal text of a natural number denotes it |
| PaymentMapper.AmountRoundTrip | admin/src/core/module/payment/mappers.py:53 | the amount's text reads back as the same amount, sign included |
| PaymentMapper.FromEntity | admin/src/core/module/payment/mappers.py:39-61 | the stored columns; the amount as text denoting it; the type by name |
| PaymentMapper.EntityRoundTrip | admin/src/core/module/payment/mappers.py:18-61 | a payment serialised and rebuilt keeps date, description, beneficiary and archive flag; the amount text denotes the same amount |
| PaymentMapper.NewPaymentNotArchived | admin/src/core/module/payment/mappers.py:35 | a payment created without an archive flag is not archived |
| PublicationMapper.FromEntity | admin/src/core/module/publication/mappers.py:11-33 | the stored columns, status and type by value |
| PublicationMapper.ToEntity | admin/src/core/module/publication/mappers.py:36-54 | the six columns read with `.get`; the status kept when present, `DRAFT` when absent |
| PublicationMapper.FromCreateForm | admin/src/core/module/publication/mappers.py:57-74 | the five edited fields and no author (`None`) |
| PublicationMapper.FromEditForm | admin/src/core/module/publication/mappers.py:77-93 | the five edited fields, never the author |
| PublicationMapper.ToForm | admin/src/core/module/publication/mappers.py:96-113 | the five edited fields and the author |
| PublicationMapper.CreateFormStatusKept | admin/src/core/module/publication/mappers.py:51-71 | a publication built from the creation form takes the form's status, `None` when missing, so the draft default never applies; no author and no publish date |
| PublicationMapper.NoStatusMakesDraft | admin/src/core/module/publication/mappers.py:51 | data without a status builds a draft |
| PublicationMapper.EditIgnoresAuthor | admin/src/core/module/publication/mappers.py:77-113 | reading the edit form back from a filled form gives the same fields: the author plays no part |
| PublicationMapper.FormOfEntity | admin/src/core/module/publication/mappers.py:11-113 | the form of a serialised publication holds its text columns, status and type by value, and author |
| ContactMapper.FromEntity | admin/src/core/module/contact/mappers.py:10-29 | every stored column as is, the status included |
| ContactMapper.WithStatus | admin/src/core/module/contact/mappers.py:32-71 | the three text fields; the status kept when present, `PENDING` when absent |
| ContactMapper.FormFields | admin/src/core/module/contact/mappers.py:74-107 | the three text fields and the status, `None` when missing |
| ContactMapper.CreatedPending | admin/src/core/module/contact/mappers.py:48-70 | a message created from a form without status is pending |
| ContactMapper.EditFormDefeatsDefault | admin/src/core/module/contact/mappers.py:48-88 | a message built from the edit form without a status gets `None`, not pending |
| ContactMapper.WithStatusIdempotent | admin/src/core/module/contact/mappers.py:44-71 | building from the creation form's output changes nothing more |
| ContactMapper.EntityRoundTrip | admin/src/core/module/contact/mappers.py:10-49 | a message serialised and rebuilt keeps its text fields and status |
| HorseMapper.ToEntity | admin/src/core/module/equestrian/mappers.py:51-80 | the nine columns read with `.get`; the documents those `create_files` builds, one per truthy entry |
| HorseMapper.FromEntity | admin/src/core/module/equestrian/mappers.py:83-113 | the stored columns, the type by value, and with documents every stored file listed as its `to_dict` dictionary |
| HorseMapper.FromSimpleForm | admin/src/core/module/equestrian/mappers.py:116-137 | the nine fields; the deletion flag kept when present, `False` when absent |
| HorseMapper.EntityRoundTrip | admin/src/core/module/equestrian/mappers.py:51-113 | a horse serialised and rebuilt keeps every column, the type as its value, with no documents |
| HorseMapper.SimpleFormToEntity | admin/src/core/module/equestrian/mappers.py:51-137 | a horse built from the simple form has exactly the form's nine fields |
| HorseMapper.FilesListed | admin/src/core/module/equestrian/mappers.py:110-111 | unlike the employee mapper, every stored file is listed, in order, each as the eight `to_dict` keys with `uploaded_at` the file's `inserted_at` |
| UserMapper.ToEntity | admin/src/core/module/user/mappers.py:20-44 | the password hashed on creation and passed through on update; `enabled` defaults to true, `system_admin` and `is_deleted` to false, `role_id` to `None` |
| UserMapper.FromEntity | admin/src/core/module/user/mappers.py:47-68 | the stored columns, no password, and `assigned_to` the employee's id or `None` |
| UserMapper.SerialisedNotCreatable | admin/src/core/module/user/mappers.py:32-68 | a serialised user has no password to hash, so it cannot be created again |
| UserMapper.UpdateRoundTrip | admin/src/core/module/user/mappers.py:34-68 | updating from a serialised user keeps every column and sets the password to `None` |
| UserMapper.CreatedDefaults | admin/src/core/module/user/mappers.py:40-43 | a user created without those keys is enabled, not an administrator, has no role and is not deleted |
| UserMapper.PasswordNotStoredPlain | admin/src/core/module/user/mappers.py:31-32 | with a hash that changes every text, the stored password differs from the one given |
| ErrorHandler.HandleError | admin/src/web/handlers/error.py:20-46 | a known code is kept, any other becomes 500; name and description are that code's table entry, never the unknown-error pair |
| ErrorHandler.HandleErrorIdempotent | admin/src/web/handlers/error.py:42-43 | handling the handled code again gives the same error |
| ErrorHandler.UnknownCodesAgree | admin/src/web/handlers/error.py:42 | all unknown codes render as the 500 page |
| ErrorHandler.HandledNamesDistinct | admin/src/web/handlers/error.py:30-40 | distinct known codes have distinct names |
| ErrorHandler.NotFoundPage | admin/tests/test_error_handlers.py:13-16 | the 404 page shows code 404, "No encontrado" and its description |
| Filters.RenderNaturalBoolean | admin/src/web/helpers/filters.py:15-25 | "Si" iff the value is truthy, otherwise "No" |
| Filters.RenderRole | admin/src/web/helpers/filters.py:28-44 | the role name of ids 1 to 4 (and of `True`, equal to 1); "No definido" for any other hashable value; a list or dictionary raises `TypeError` |
| Filters.UnhashableRaises | admin/src/web/helpers/filters.py:44 | only a list or a dictionary makes `roles.get` raise; a date, enum member, entity or `None` renders as "No definido" |
| Filters.RoleNamesIdentify | admin/src/web/helpers/filters.py:38-44 | a defined name identifies the key it came from |
| Filters.DefinedRoles | admin/src/web/helpers/filters.py:38-44 | an integer id has a name iff it lies in 1..4 |
| Filters.RoleLookupByEquality | admin/src/web/helpers/filters.py:44 | the lookup is by Python equality: `True` names role 1; a text id names nothing |
| Filters.RenderFileType | admin/src/web/helpers/filters.py:47-57 | "(Url)" iff the flag is truthy, otherwise "(Archivo)" |
| SessionGuards.LoginRequired | admin/src/web/helpers/auth.py:10-17 | as written: the view runs iff the session holds no user; otherwise 401 |
| SessionGuards.SignedInUserRefused | admin/src/web/helpers/auth.py:13-15 | a signed-in user is refused with 401; an empty session reaches the view |
| SessionGuards.LoginRequiredIntended | admin/src/web/helpers/auth.py:6-7 | the view runs iff the session is authenticated; otherwise 401 |
| SessionGuards.GuardsComplementary | admin/src/web/helpers/auth.py:13-15 | the intended guard admits exactly the sessions the written one refuses |
| SessionGuards.AuthenticationOnlyReadsUser | admin/src/web/helpers/auth.py:6-7 | only the `user` entry decides authentication |
| SessionGuards.CheckCreationInProcess | admin/src/web/helpers/create.py:5-29 | the view runs iff the named session entry is truthy; otherwise a flashed message and a redirect home |
| SessionGuards.CreationEntryDecides | admin/src/web/helpers/create.py:22-25 | only the named entry decides; other entries change nothing |
| FormValidator.TableTokens | admin/static/js/form_validator.js:123-124 | exactly the tokens that name an entry of the rule table, own or inherited, and no more of them than tokens |
| FormValidator.JudgeOfSeven | admin/static/js/form_validator.js:99-160 | over the seven checks, valid iff all pass, and the message is that of the last failing one |
| Auth.SeedEquestrianLinks | admin/src/core/seeds.py:88-135 | the seeded link table never pairs the equestrian role with the rider create and delete permissions |
| Auth.SeedRiderEditIds | admin/src/core/seeds.py:66-69 | the rider create and delete permissions are seeded with ids 12 and 14 |
| ErrorHandler.TableShape | admin/src/web/handlers/error.py:30-40 | the table holds exactly the codes 400, 401, 403, 404, 405 and 500, none with the unknown-error pair |
| JockeyMapper.UnsetColumns | admin/src/core/module/jockey_amazon/mappers.py:227-276 | the constructor sets neither the deletion flag nor the pension columns |
| JockeyMapper.WorkSectionNameUnwritten | admin/src/core/module/jockey_amazon/mappers.py:180-225 | `work_assignment_information` is not a key `from_entity` writes |
| Enums.ByName | admin/src/core/module/employee/repositories.py:386-387 | `E[name]`: a member is found by name iff one has it, and it is one with that name |
| Filters.RolesMatchSeed | admin/src/web/helpers/filters.py:38-44 | the names shown are the seeded roles' own: each seeded role's id renders as its name, and exactly the seeded ids have one |
| EmployeeRepository.GetPage | admin/src/core/module/employee/repositories.py:412-431 | exactly the employees the search selects, archived ones included, ordered by the requested clauses on known columns |

## Left out

- Controllers, routing, `render_template`, `flash` and the dependency-injection container: they only pass data between the modelled operations and the templates.
- Database sessions, commits and transactions: a table is a value, and an operation returns the new table.
- SQLAlchemy pagination: a page is the whole filtered and ordered row sequence, without a page size or an offset.
- MinIO I/O (upload, delete, presigned URLs): whether a storage call succeeded is a boolean parameter.
- ULID generation: fresh file and photo ids are parameters.
- bcrypt: password hashing is a `hash` parameter and password checking a `hashMatches` parameter.
- The clock and JavaScript `new Date()`: "today" and the entered day are integer inputs.
- Floating point: `parseFloat` in the min/max checks, `scholarship_percentage` and the payment amount. A stored amount is an integer number of hundredths.
- The email and url regular expressions: a `RegexOracle` parameter decides them. Every other pattern, `letters` and `alphanumeric` included, is spelled out.
- Unicode `str.isdigit`: only ASCII digits are modelled.
- Queries.Bound: PostgreSQL rejects an enumeration parameter that names no member, and a date comparison with a text that is no date, by failing the query. The model does not raise there: such a comparison is false, and the page is empty (`NonIsoTextBoundsNothing`).
- Time zones, fractions of a second and PostgreSQL's other date input forms: a `Date` counts whole seconds from 1 January of year 1, a date is its first second, and only the `YYYY-MM-DD` text is read as a date.
- PublicationRepository.ApiPage: parsing `published_from` and `published_to` with `datetime.fromisoformat`, and the 400 response for a malformed one, are not modelled; the lemma starts from the two dates.
- `format_date` and its `strftime` format.
- `admin/src/core/module/accounts`: a legacy duplicate of the user module. Its validator calls a `validate_email` it never defines.
- The charge and contact repositories and the payment and equestrian services: they call methods and columns their own modules do not define.
- The employee and user services: their bodies are stubs.
- The WTForms field declarations: they are declarative lists, and only the custom `validate` methods are modelled.
- Browser scripts other than `form_validator.js`.
- `seeds.py`: it is used only as a fixture, for the seeded roles the filters are checked against.
- Columns that the mappers read but the ORM models lack: charges have no `jya_id` or `is_archived`, and publications have no `type` or `is_deleted` (read at `publication/mappers.py:32`) and store `creation_date` where the mapper reads `create_date`. The mappers are modelled on plain dictionaries. The publication repository's logical delete and recover are modelled as written, raising `AttributeError`, and beside them as they would behave with the column declared.
- FileMapper.CreateFiles: `create_files` in the jockey and horse mappers is identical to the employee one, so this one member models all three.
- JockeyMapper.ToEntity: requires `work_assignments` to be present, because a missing one reaches the assignment mapper as `None` and raises.
- The jockey work section is written under `organization_work` but read under `work_assignment_information`. `JockeyMapper.FromEntityNotReadable` states the consequence.
- The contact status is returned as stored, not rendered.
- `get_roles` returns the roles table itself.
- EmployeeRepository.GetActiveEmployees: the helpers `apply_filter_criteria` and `apply_multiple_search_criteria` are imported at `employee/repositories.py:17-21` but `common/repositories.py` defines neither. `apply_filter_criteria(Employee, query, {"filters": {"is_active": True, "is_deleted": False}})` at line 588 is read as the equality filters `is_active == True` and `is_deleted == False`. The search predicate is a parameter.
- UserRepository.GetActiveUsers: the same missing search helper is a parameter.
- Auth.Authenticate: bcrypt's verdict on the password is a parameter, so the contract says nothing about which passwords match.
- The client-side validator as written deviates from the documented rules in five ways, each modelled as written:
  - an empty required value can show the `minLength` message;
  - `dni` accepts seven digits;
  - the date rule accepts 31/02;
  - the `no` rule rejects line breaks;
  - a directive token naming an `Object.prototype` member (such as `constructor`) throws a `TypeError`, so the submit is not prevented.

## Findings

| source | as written | input that shows it | evidently intended | confidence | as-written member | corrected member |
|---|---|---|---|---|---|---|
| admin/src/web/helpers/auth.py:13-15 | `login_required` aborts with 401 when the session is authenticated and calls the view otherwise | a session holding `user` = 1 gets 401, while an empty session reaches the view | abort with 401 only when no user is signed in | high, not executed | SessionGuards.SignedInUserRefused | SessionGuards.GuardsComplementary |
| admin/src/core/module/jockey_amazon/forms.py:175-178 | the second family member is looked at only when its `is_optional` field is falsy, and then `validate()` is called without its `form` argument, which raises `TypeError`. The page sends the flag as the string `"False"` (a non-empty, truthy text), so a filled-in second member is never checked, and the mapper at mappers.py:280-281 saves it because `"False".lower() == 'false'` | `is_optional` = `"False"` with an invalid second member passes validation and is saved; a falsy `is_optional` raises `TypeError` | validate the second member whenever the mapper will save it | medium, not executed | Forms.FamilySkipsFilledSecondMember | Forms.FamilyIntendedChecksFilledSecond |
| admin/src/core/module/publication/repositories.py:262 | `logical_delete_publication` and `recover_publication` (line 281) read `publication.is_deleted`, which the `Publication` model at `publication/models.py:20-49` does not declare | any stored publication id: the read raises `AttributeError` instead of archiving or recovering | a declared `is_deleted` column, toggled by the two calls | high, not executed | PublicationRepository.DeleteRaisesWhereDeclaredArchives | PublicationRepository.RecoverGivesDraft |
