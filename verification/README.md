# Container shipment board — a Dafny model of its calculations

The application tracks sea containers of timber through three stages:
planning ("Planejamento"), in transit ("Em Trânsito") and in the yard
("Entregue"). A spreadsheet holds one row per container. The web client
decodes the rows into containers, shows them as cards in one column per
stage, and writes three kinds of payload back: create, update (shipment or
receipt) and delete. A dashboard reconciles the requested and the shipped
material per supplier and month, and computes the volume of the extra
material.

This project models the pure logic inside those components as immutable
datatypes and functions over `seq<char>`, integer day numbers and `real`
quantities, and proves what that logic promises.

| file | module | what it models |
|---|---|---|
| optional.dfy | `Optional` | `Option<T>`: a missing, `null` or `NaN` value |
| text.dfy | `Text` | `trim`, `split`, `includes`, `indexOf`, `padStart`, `toUpperCase`, `replace` (ASCII) |
| numbers.dfy | `Numbers` | `String(n)`, `parseInt`, `parseFloat` as prefix decimal readers |
| calendar.dfy | `Calendar` | proleptic Gregorian day numbers, the `Date` constructor, `getISOWeek` |
| calendar_facts.dfy | `CalendarFacts` | the days around the 2024/2025 year change, computed once |
| dates.dfy | `Dates` | `parseDate` and `formatDateBR` of the two card files |
| domain.dfy | `Domain` | `Item`, `Container`, `Status`, the shipment form, the `isExtra` split |
| volume.dfy | `Volume` | `calculateVolumeFromDesc`, with a scanner for the `A x B x C` pattern |
| volume_examples.dfy | `VolumeExamples` | worked descriptions, including a catalogue measure that does not match |
| dashboard.dfy | `Dashboard` | the supplier/month filter, the `stats` aggregation, the row status, the month picker |
| card.dfy | `Card` | deviation (early/late), the collect week, the badges, the buttons, the item lists |
| create.dfy | `CreateForm` | the id generator, the m³ total, the row edits and the submit clean-up |
| records.dfy | `Records` | `normalizeId`, row decoding, the three payloads, the board columns |
| register.dfy | `Register` | the shipment/receipt form and its older copy |
| details.dfy | `Details` | the read-only details view |

Time, the network and JSON are parameters. "Today" is a day number
argument. `JSON.parse` and `JSON.stringify` are function arguments. The
store that applies a payload to a row is modelled as writing each payload
field into the column of the same name.

## Model

| member | source | states |
|---|---|---|
| Text.Trim | App.tsx:27 | the result is the input with a blank prefix and a blank suffix cut off, and it has no white space at either end; a text without white space is unchanged |
| Text.TrimIdempotent | components/ContainerCard.tsx:51 | trimming twice is trimming once |
| Text.TrimEmptyIffBlank | App.tsx:156 | `trim() === ''` holds exactly when every character is white space |
| Text.RemoveSpaces | App.tsx:27 | the result holds no white space and is no longer than the input |
| Text.ToUpper | App.tsx:27 | upper-casing keeps the length and maps each character on its own |
| Text.Find | components/ContainerCard.tsx:38 | `indexOf` finds an occurrence with none before it, and `None` means there is no occurrence |
| Text.ContainsIffFound | components/ContainerCard.tsx:38 | `includes` holds exactly when `indexOf` finds the text |
| Text.SplitOn | RegisterModal.tsx:37 | `split` yields at least one piece, and no piece holds the separator |
| Text.JoinSplit | RegisterModal.tsx:37 | joining the pieces of a split with the separator restores the text |
| Text.Split | components/ContainerCard.tsx:39 | splitting on one character yields pieces free of it |
| Text.SplitCons | components/ContainerCard.tsx:39 | the first separator ends the first piece |
| Text.SplitThree | components/ContainerCard.tsx:39 | two separators between separator-free texts give exactly those three pieces |
| Text.Pad2 | CreateModal.tsx:87 | `padStart(2, '0')` leaves two or more characters alone and otherwise pads with leading zeros |
| Text.ReplaceFirst | components/DashboardView.tsx:37 | `replace(',', '.')` keeps the length and changes nothing when there is no comma; `ReplaceFirstAt` gives what it changes |
| Text.ReplaceFirstAt | components/DashboardView.tsx:37 | when the comma occurs, exactly its first occurrence becomes a dot and the rest of the text is kept |
| Text.ReplaceFirstAfter | components/DashboardView.tsx:37 | a comma-free prefix passes through the replacement unchanged |
| Numbers.NatToString | CreateModal.tsx:87 | `String(n)` is the shortest digit string whose value is `n` |
| Numbers.ParseInt | CreateModal.tsx:74 | `parseInt` is a number exactly when digits follow the white space and sign |
| Numbers.ParseFloat | components/DashboardView.tsx:37-38 | `parseFloat` is a number exactly when the unsigned part reads as a decimal |
| Numbers.ParseIntOfString | CreateModal.tsx:74 | `parseInt(String(i))` is `i` for every integer |
| Numbers.ParseIntOfPadded | components/DashboardView.tsx:30-33 | `parseInt` of a zero-padded number reads the number back |
| Numbers.ParseFloatOfDecimal | components/DashboardView.tsx:37 | `parseFloat` of `ip.fp` is the decimal value of those digits |
| Numbers.ParseFloatOfDigits | components/DashboardView.tsx:48 | `parseFloat` of a digit string is its value |
| Numbers.LeadingDigitsStop | components/DashboardView.tsx:48 | the number read ends at the first non-digit |
| Numbers.ParseIntStops | components/ContainerCard.tsx:55 | `parseInt` of digits followed by a non-digit reads the digits alone |
| Numbers.LeadingZero | CreateModal.tsx:87 | a leading zero does not change a digit string's value |
| Calendar.NextYear | components/ContainerCard.tsx:31 | consecutive years start one year length apart |
| Calendar.YearsAscend | components/ContainerCard.tsx:31 | later years start at least 365 days later |
| Calendar.YearOf | CreateModal.tsx:79 | `getFullYear` returns the one year whose days hold the day |
| Calendar.YearOfUnique | CreateModal.tsx:79 | each day belongs to exactly one year |
| Calendar.NewDate | CreateModal.tsx:74 | `new Date(y, m, d)` is the Invalid Date exactly when a component is `NaN` |
| Calendar.Weekday | components/ContainerCard.tsx:29 | the day of the week, with Sunday as 7, numbers the days 1..7 from Monday |
| Calendar.Thursday | components/ContainerCard.tsx:30 | the week's Thursday lies within three days of the day |
| Calendar.ISOWeek | components/ContainerCard.tsx:27-33 | `getISOWeek` returns a week number in 1..53 |
| Calendar.SameWeek | CreateModal.tsx:30-41 | all seven days Monday to Sunday share week number and week-owning year |
| Calendar.WeekOfThursday | components/ContainerCard.tsx:30-32 | days with the same Thursday have the same week number and week-owning year |
| Calendar.FourthOfJanuaryInWeekOne | components/ContainerCard.tsx:27-33 | 4 January is always in week 1 of its own year |
| Calendar.FirstThursdayInWeekOne | CreateModal.tsx:30-41 | the first Thursday of January is in week 1 of its year |
| CalendarFacts.LateDecember2024 | CreateModal.tsx:78-79 | 2024-12-30 is a Monday of week 1 of 2025 in calendar year 2024 |
| CalendarFacts.NewYear2025 | CreateModal.tsx:30-41 | 2025-01-01 is in week 1 of 2025 |
| Dates.MinusOne | components/ContainerCard.tsx:55 | `parseInt(m) - 1` is `NaN` exactly when the month is `NaN` |
| Dates.BeforeT | components/ContainerCard.tsx:53 | the result is the prefix of the text up to, not including, its first `T`, or the whole text when it has none |
| Dates.DayPartUnique | components/ContainerCard.tsx:53 | a text has exactly one such day part |
| Dates.ParseDate | components/ContainerCard.tsx:49-62 | a date is read exactly when the text is non-empty and, once trimmed, has a `-` and three or more `-` fields before its `T`, or a `/` and three or more `/` fields; otherwise `null` |
| Dates.FormatDateBR | components/ContainerCard.tsx:35-47 | empty input prints "N/D"; the trimmed day part with a `-` prints its third and second `-` fields ("undefined" where missing) and, with the year, the first field from its third character; without `-`, three `/` fields print as `D/M` or `D/M/YY` in the order written, and any other text prints trimmed and unchanged |
| Dates.FormatSameDay | components/ContainerCard.tsx:36-37 | two non-empty texts with the same day part print alike, so the time after `T` never shows |
| Dates.FormatTwoSlashFields | components/ContainerCard.tsx:42-46 | slash text of two fields, such as "1/2", prints as itself |
| Dates.ParseDashed | components/ContainerCard.tsx:51-55 | after trimming, text with a `-` and three or more `-` fields before its `T` reads as the `Date` of its first three fields, with month index `M - 1` |
| Dates.ParseSlashed | ContainerCard.tsx:41-58 | text that the dashed reading rejects, even one holding a `-`, reads as `D/M/Y` from its first three `/` fields when it has three or more |
| Dates.ParseDateTrims | components/ContainerCard.tsx:51 | surrounding white space does not change the reading |
| Dates.ParseSlashedDespiteDash | components/ContainerCard.tsx:52-59 | `D/M/Y` text followed by `-` and a tail ("01/02/2024-x") falls back to the `D/M/Y` reading and reads as the text without the tail |
| Dates.ParseTooFewFields | components/ContainerCard.tsx:54-61 | two fields ("2024-01", "1/2") give `null` |
| Dates.ParseExtraDashField | components/ContainerCard.tsx:54-55 | a fourth `-` field ("2024-01-05-x") is ignored |
| Dates.ParsePadded | components/ContainerCard.tsx:51 | a date text with a space on each side reads as the bare text |
| Dates.ParseIsoText | components/ContainerCard.tsx:49-62 | an ISO date text reads as the `Date` of its fields |
| Dates.ParseBrText | components/ContainerCard.tsx:57-59 | both spellings of a date read as the same `Date` |
| Dates.ParseCalendarDate | ContainerCard.tsx:41-58 | for a year from 100 on, both spellings name that calendar day |
| Dates.ParseTwoDigitYear | components/ContainerCard.tsx:59 | a two-digit year is read as a year of the 1900s |
| Dates.ParseNonNumericField | components/ContainerCard.tsx:55 | a non-numeric field still yields a truthy Invalid Date |
| Dates.FormatIsoText | components/ContainerCard.tsx:36-40 | an ISO date, bare or followed by `T` and any time, prints `DD/MM`, or `DD/MM/YY` with the year |
| Dates.IsoDayPart | components/ContainerCard.tsx:36 | the day part of an ISO date-time is its ISO date |
| Dates.FormatBrValue | components/ContainerCard.tsx:41-44 | a `DD/MM/YYYY` date prints `DD/MM`, or `DD/MM/YY` with the year |
| Dates.FormatBrText | ContainerCard.tsx:25-38 | a date prints the same in either spelling |
| Domain.ItemsWithFlag | components/DetailsModal.tsx:21-22 | the filter keeps only items with the flag, never more items than there are |
| Domain.ItemsWithFlagMembers | components/DetailsModal.tsx:21-22 | an item passes the filter exactly when it carries the flag |
| Domain.ItemsWithFlagAppend | components/DetailsModal.tsx:21-22 | the filter keeps the items' order |
| Domain.ItemsWithFlagPartition | components/DetailsModal.tsx:21-22 | the planned and the extra items together are exactly the items |
| Domain.ItemsWithFlagAll | App.tsx:70-86 | a list that all carries the flag passes whole and yields nothing for the other flag |
| Volume.DigitsEnd | components/DashboardView.tsx:41 | a `\d+` run ends at the first non-digit |
| Volume.NumberEnd | components/DashboardView.tsx:41 | a number token is greedy: digits, then a fraction only when a digit follows the mark |
| Volume.SeparatorEnd | components/DashboardView.tsx:41 | the separator found is `\s*[xX*]\s*` |
| Volume.MatchAt | components/DashboardView.tsx:41 | reading from a position succeeds exactly when the pattern occurs there; the match it gives is an occurrence, with the groups and separators of every occurrence there and the longest last group |
| Volume.FirstIndex | components/DashboardView.tsx:42 | the first position that holds something, with nothing before it |
| Volume.FirstIndexAt | components/DashboardView.tsx:42 | a position holding something with nothing before it is the first |
| Volume.FindDims | components/DashboardView.tsx:42 | `match` returns an occurrence of the pattern starting no later than any other occurrence, and nothing exactly when the pattern does not occur |
| Volume.FirstMatch | components/DashboardView.tsx:42 | a match with no match before it is the one `match` returns |
| Volume.TokenValueIsDecimal | components/DashboardView.tsx:45-47 | each matched group reads as the non-negative decimal it spells |
| Volume.FractionTokenValue | components/DashboardView.tsx:45-47 | a group with a decimal comma or dot reads as that decimal |
| Volume.Metres | components/DashboardView.tsx:45-47 | a group in millimetres is a non-negative length in metres |
| Volume.DimensionVolume | components/DashboardView.tsx:41-52 | a description in which the pattern does not occur gives 0, otherwise the leftmost occurrence's volume; a non-negative quantity gives a non-negative volume |
| Volume.CalculateVolume | components/DashboardView.tsx:35-53 | a usable m³ override wins; otherwise the leftmost dimension triple times the quantity, and 0 when the pattern does not occur in the description |
| Volume.PatternReading | components/DashboardView.tsx:41 | every step of reading an occurrence of the pattern is forced: number ends, separators and the start of each group |
| Volume.NoMatchAtStop | components/DashboardView.tsx:41 | a digit run followed by a letter starts no match |
| VolumeExamples.UnitsBreakThePattern | components/DashboardView.tsx:41-52 | the pattern occurs nowhere in "20mm x 100mm x 3m", so its volume is 0 |
| VolumeExamples.BoardMatch | components/DashboardView.tsx:41-42 | "Tabua 1000x200x20" matches at position 6 with groups 1000, 200 and 20 |
| VolumeExamples.BoardExample | components/DashboardView.tsx:44-49 | ten 1000 x 200 x 20 mm boards make 0.04 m³ |
| VolumeExamples.VolumeOfMatch | components/DashboardView.tsx:44-49 | the volume is the product of the three lengths and the quantity |
| VolumeExamples.OverrideExample | components/DashboardView.tsx:36-39 | an override of "1,5" gives 1.5 whatever the description says |
| Dashboard.FilterPeriod | components/DashboardView.tsx:64-69 | a container is selected exactly when it has the supplier and its reference date falls in the month |
| Dashboard.SupplierData | components/DashboardView.tsx:61-70 | no supplier selects nothing; otherwise exactly the containers of that supplier and month |
| Dashboard.SupplierDataAppend | components/DashboardView.tsx:64 | the selection keeps the containers' order |
| Dashboard.MonthKeyOfIsoDate | components/DashboardView.tsx:67-68 | an ISO date `y-m-…` falls in month `y-m` |
| Dashboard.AllItems | components/DashboardView.tsx:77-78 | the items visited are exactly the items of the selected containers, and one container gives its own item list |
| Dashboard.AllItemsAppend | components/DashboardView.tsx:77-78 | the visit distributes over concatenation, so every item of every container is visited once, in container order |
| Dashboard.RowIndex | components/DashboardView.tsx:86 | the row found carries the description, and no row carries it when none is found |
| Dashboard.Summarize | components/DashboardView.tsx:77-93 | every planned description has one row holding its sums, and the extras are listed with their volumes and total |
| Dashboard.RowsWith | components/DashboardView.tsx:83-91 | rows keyed by exact description hold the sums over the planned items, for any reading of the amounts |
| Dashboard.ExtrasOf | components/DashboardView.tsx:79-82 | the extras list is every extra item with its computed volume, and the total is their sum |
| Dashboard.AbsentDescSumsToZero | components/DashboardView.tsx:89-90 | a description with no planned item sums to nothing |
| Dashboard.AddPlannedStep | components/DashboardView.tsx:86-90 | a planned item adds to its row, or opens one, and keeps every other row |
| Dashboard.ExtraStep | components/DashboardView.tsx:79-82 | an extra item leaves the rows as they were |
| Dashboard.ComputeStats | components/DashboardView.tsx:72-101 | one row per planned description, no two rows alike, each with its requested and shipped sums; extras and their total; the order count |
| Dashboard.PlannedInAllItems | components/DashboardView.tsx:77-79 | a description is planned in the visited items exactly when a selected container plans it |
| Dashboard.StatusOfRow | components/DashboardView.tsx:225-226 | CORRETO, EXCESSO or FALTA exactly when shipped equals, exceeds or falls short of requested |
| Dashboard.ChangeYearKeepsMonth | components/DashboardView.tsx:105-108 | changing the year moves the year by the delta and keeps the month |
| Dashboard.SelectMonthKeepsYear | components/DashboardView.tsx:110-112 | picking index `i` selects month `i + 1` of the same year |
| Dashboard.MonthKeyRoundTrip | components/DashboardView.tsx:30-33 | the `YYYY-MM` key reads back as the year and month it was written from |
| Dashboard.NegativeYearLost | components/DashboardView.tsx:30-33 | a year before 0 writes a leading `-` and no longer reads back |
| Card.ParsedDay | components/ContainerCard.tsx:79-81 | a parsed date has a day exactly when it is neither `null` nor the Invalid Date |
| Card.MidnightOrder | components/ContainerCard.tsx:86-91 | comparing midnights, or a midnight with a noon, is comparing days |
| Card.TodayAgainstNoon | components/ContainerCard.tsx:91 | today's midnight after a noon date is today after that day |
| Card.DeviationOf | components/ContainerCard.tsx:84-93 | planning is never early and is late exactly after its end; shipped without all three dates is on time; otherwise late beyond the end, early before the start |
| Card.DeviationWindow | ContainerCard.tsx:80-98 | with all three dates a shipped container is late exactly after the end, early exactly before the start and not late |
| Card.DeviationInvalidEnd | components/ContainerCard.tsx:85-90 | an Invalid Date end never makes a shipped container late |
| Card.PlanningLateAfterDeadline | components/ContainerCard.tsx:91-93 | a planning container once late stays late on every later day |
| Card.WeekIdentity | components/ContainerCard.tsx:27-33 | two days share week number and week-owning year exactly when they share the Thursday |
| Card.CollectWeek | components/ContainerCard.tsx:95-99 | never in the yard; otherwise the relevant date has today's week number and calendar year |
| Card.CollectWeekByIsoWeek | components/ContainerCard.tsx:95-99 | never in the yard; otherwise the relevant date lies in today's ISO week |
| Card.CollectWeekAllWeek | components/ContainerCard.tsx:95-99 | the corrected test holds on all seven days of the week |
| Card.CollectWeekSameYear | components/ContainerCard.tsx:95-99 | within one calendar year the as-written test agrees with the corrected one |
| Card.CollectWeekYearMismatch | components/ContainerCard.tsx:95-99 | a container due 2024-12-30 is flagged on 2024-01-03, a year early |
| Card.MismatchOnDays | components/ContainerCard.tsx:96-98 | same week number and calendar year but different weeks set the two tests apart |
| Card.NaSemanaBadge | components/ContainerCard.tsx:149 | the NA SEMANA badge shows exactly when the container is not in the yard, its relevant date has today's ISO week number and calendar year, and it is neither early nor late |
| Card.NaSemanaBadgeByIsoWeek | components/ContainerCard.tsx:149 | the badge on the intended test shows exactly when the relevant date lies in today's Monday-to-Sunday week and the container is neither early nor late |
| Card.NaSemanaPlanning | components/ContainerCard.tsx:96-99 | a planning container shows the badge exactly when its deadline has today's week number and calendar year and has not passed |
| Card.NaSemanaYearEarly | components/ContainerCard.tsx:149 | a planning container due 2024-12-30 shows NA SEMANA on 2024-01-03; the intended badge does not |
| Card.SemanaAtualAsWritten | ContainerCard.tsx:190 | the SEMANA ATUAL badge as written never shows |
| Card.SemanaAtual | ContainerCard.tsx:190 | the corrected badge shows exactly for planning with today inside start..end, and only with no deviation |
| Card.SemanaAtualReachable | ContainerCard.tsx:190 | a container planned for 1..7 January 2024 shows the corrected badge on 3 January, and not the written one |
| Card.SemanaAtualOnDays | ContainerCard.tsx:190 | a planning window holding today shows the corrected badge only |
| Card.AdminActions | components/ContainerCard.tsx:200-226 | admins may ship only in planning, edit and receive only in transit, delete except in the yard; others get nothing |
| Card.ActionsFollowLifecycle | components/ContainerCard.tsx:200-226 | planning offers ship and delete, transit edit, delete and receive, the yard nothing |
| Card.LegacyActions | ContainerCard.tsx:288-318 | the older card always offers delete and shipment to admins, edit and receive only in transit |
| Card.LegacyDeletesInYard | ContainerCard.tsx:288-318 | the older card offers delete in the yard where the current one does not |
| Card.NonBlankItems | ContainerCard.tsx:145 | each item with a non-blank description as often as in the input, and no other item |
| Card.NonBlankItemsAppend | ContainerCard.tsx:145 | the filter distributes over concatenation, so the kept items stay in input order |
| Card.ProgrammedItems | components/ContainerCard.tsx:131 | each planned item with a non-blank description as often as in the input, and no other item |
| Card.ProgrammedItemsAppend | components/ContainerCard.tsx:131 | the filter distributes over concatenation, so the kept items stay in input order |
| Card.ProgrammedIsPlannedNonBlank | components/ContainerCard.tsx:131 | the programmed items are the non-blank ones among the planned ones, in order |
| Card.ExtraItemsCount | components/ContainerCard.tsx:132 | the extras counted and the planned items together are all the items |
| Card.CardLinesBounded | components/ContainerCard.tsx:131-132 | the card never shows more item lines than there are items |
| Card.DisplayItems | ContainerCard.tsx:145-146 | the first at most three items with a description, in order |
| Card.DisplayItemsAll | ContainerCard.tsx:145-146 | a card with at most three described items shows all of them |
| CreateForm.WeekText | CreateModal.tsx:76 | the week text is never empty |
| CreateForm.Suffix | CreateModal.tsx:79-81 | the suffix is `W`, the week, `/` and a year text |
| CreateForm.CountWithSuffix | CreateModal.tsx:85 | never more holders of the suffix than listed containers |
| CreateForm.NextId | CreateModal.tsx:87-88 | the next id holds its suffix |
| CreateForm.GenerateSmartId | CreateModal.tsx:61-98 | no id while the start date is empty; otherwise an id holding the date's suffix |
| CreateForm.CountAppend | CreateModal.tsx:85 | one more listed container raises the count by one exactly when its id holds the suffix |
| CreateForm.FirstOfItsWeek | CreateModal.tsx:85-88 | with no id holding the suffix the id is `CONT-01-` and the suffix |
| CreateForm.NextAfterOneMore | CreateModal.tsx:85-88 | each further holder of the suffix moves the sequence one up |
| CreateForm.IdSequenceRoundTrip | CreateModal.tsx:87-88 | the id splits into `CONT`, the padded sequence and the suffix, and the sequence reads back |
| CreateForm.IdForInjective | CreateModal.tsx:88 | ids of different sequence numbers differ |
| CreateForm.FreshWhenNumberedInOrder | CreateModal.tsx:85-88 | when the holders of the suffix are `CONT-01..n`, the new id is fresh |
| CreateForm.CollisionAfterDeletion | CreateModal.tsx:85-88 | after `CONT-01` of a week is deleted, the next id repeats `CONT-02` |
| CreateForm.SuffixHasNoDash | CreateModal.tsx:79-81 | a valid date from year 0 on gives a suffix without `-` |
| CreateForm.WeekSuffix | CreateModal.tsx:78-81 | the corrected suffix is `W`, the week, `/` and the week-owning year's text |
| CreateForm.WeekSuffixConstantOverWeek | CreateModal.tsx:78-81 | with the week-owning year all seven days of a week share one suffix |
| CreateForm.SameWeekSameSuffix | CreateModal.tsx:78-81 | two days with one Thursday share the corrected suffix |
| CreateForm.WeekSuffixAgrees | CreateModal.tsx:79 | where week and calendar year agree, the corrected suffix is the written one |
| CreateForm.StartDateOfCalendarDate | CreateModal.tsx:69-74 | an ISO start date from year 100 on reads as its calendar day |
| CreateForm.SuffixOfDay | CreateModal.tsx:76-81 | the written and the corrected suffix of a day, spelled out |
| CreateForm.YearSuffixMismatch | CreateModal.tsx:79 | as written, 2024-12-30 gets the suffix of 2024-01-01 and not that of 2025-01-01 in its own week |
| CreateForm.Set | CreateModal.tsx:114 | the named field takes the value and the other fields keep theirs |
| CreateForm.HandleItemChange | CreateModal.tsx:112-116 | only the given field of the given row changes |
| CreateForm.ItemChangeIdentity | CreateModal.tsx:112-116 | writing back a field's own value changes nothing |
| CreateForm.CleanItems | CreateModal.tsx:127-133 | the rows keep their number; rows before `numItems` are kept, the rest blanked |
| CreateForm.CleanIdempotent | CreateModal.tsx:127-133 | cleaning twice is cleaning once |
| CreateForm.Visible | CreateModal.tsx:103 | `slice(0, numItems)` is a prefix of at most `numItems` rows |
| CreateForm.SumAppend | CreateModal.tsx:103-106 | adding up splits over concatenation |
| CreateForm.CleanedWeight | CreateModal.tsx:127-133 | under any measure where a blank row weighs nothing, the cleaned rows weigh what the visible rows weigh |
| CreateForm.TotalOfCleaned | CreateModal.tsx:101-108 | the total of the submitted rows is the total shown in the form |
| CreateForm.TotalStep | CreateModal.tsx:103-106 | the total grows row by row by each row's parsed m³, `NaN` counting 0 |
| Records.NormalizeId | App.tsx:25-28 | the normal form has no white space and no lower-case letter, and is never longer |
| Records.NormalizeIdIdempotent | App.tsx:25-28 | normalising twice is normalising once |
| Records.RemoveSpacesAppend | App.tsx:27 | removing white space distributes over concatenation |
| Records.RemoveSpacesOfTrim | App.tsx:27 | trimming only removes white space |
| Records.NormalizeIdSpelling | App.tsx:25-28 | the normal form is exactly the non-space characters upper-cased |
| Records.StatusOf | App.tsx:65-68 | "Em Trânsito" is transit and "Entregue" the yard, exactly; every other text is planning |
| Records.StatusText | components/DetailsModal.tsx:46 | no status is labelled "Excluído" |
| Records.StatusRoundTrip | App.tsx:65-68 | decoding a status's label gives the status; a text is its status's label exactly when it is one of the three |
| Records.PlannedItems | App.tsx:70-74 | at most three planned items, none extra, each with a description |
| Records.DecodeExtras | App.tsx:76-86 | decoded extras are flagged extra, and text not starting with `[` or `{` yields none |
| Records.DecodedItemsPartition | App.tsx:70-86 | the decoded items split back into the planned slots and the extras |
| Records.DecodedExtrasShowQuantity | App.tsx:82 | a decoded extra with an ordered quantity always has a shipped one |
| Records.Live | App.tsx:63 | the rows kept are none marked "Excluído", and kept plus deleted make up the table |
| Records.DecodeAll | App.tsx:62-103 | every row not marked deleted yields one container, decoded from that row, in table order |
| Records.LiveAppend | App.tsx:63 | dropping deleted rows distributes over concatenation |
| Records.DecodeAllAppend | App.tsx:62-103 | decoding a table is decoding its parts |
| Records.DecodeOne | App.tsx:62-64 | a single row decodes to its container, or to nothing once deleted |
| Records.SavePayload | App.tsx:115-132 | the payload targets the normalised id, the yard on receipt and transit otherwise, with an empty extras cell without extras and slot `k + 1` holding `items_actual[k]` or empty |
| Records.SaveExtrasEmptyIff | App.tsx:119 | with a serialiser that never writes empty text, the extras cell is empty exactly when there are no extras |
| Records.SavedReal | App.tsx:129-131 | slot `k + 1` receives `items_actual[k]`, or empty |
| Records.UpdatedPlanned | App.tsx:129-131 | on a row filled from the front, the update gives the `k`-th planned item the `k`-th shipped quantity and keeps the rest |
| Records.SaveThenDecode | App.tsx:118-127 | after a save the row reads back in the saved status with the form's invoice and dates |
| Records.SaveThenDecodeItem | App.tsx:129-131 | after a save each planned item reads back with the form's shipped quantity |
| Records.SaveAcrossGap | App.tsx:72-74 | on a row with a gap before a filled slot, that slot's shipped quantity is lost |
| Records.SaveThenDecodeExtras | App.tsx:119 | extras written by a faithful serialiser decode back to themselves |
| Records.Keep | App.tsx:156 | the rows kept all pass the test, never more than there are |
| Records.CreatePayloadOf | App.tsx:154-176 | a created row decodes as planning, and its total is the m³ of the described rows |
| Records.KeepSplit | App.tsx:156-157 | a total splits into the kept and the dropped rows |
| Records.UsedTotalAgrees | App.tsx:156-157 | when blank rows carry no m³, the saved total equals the form's total |
| Records.CreateThenDecode | App.tsx:159-176 | a created row decodes as planning with the normalised id, supplier and dates, an empty priority, ordered and shipped material, invoice, pickup and arrival, no extras, and as items the rows among the first three with a description, in order, none shipped yet |
| Records.CleanedRows | CreateModal.tsx:125-133 | after the submit blanks the hidden rows, the rows a created row reads back are exactly the visible ones when each has a description |
| Records.NoExtrasText | App.tsx:76-77 | an empty extras cell decodes to no extras |
| Records.DeletePayloadOf | App.tsx:196-208 | a delete is sent exactly when the normalised id is non-empty and confirmed |
| Records.DeleteThenDecode | App.tsx:203 | a deleted row is absent from the decoded table |
| Records.BelowTotal | App.tsx:214 | the ordinal text order is total |
| Records.BelowTransitive | App.tsx:214 | the ordinal text order is transitive |
| Records.Insert | App.tsx:214 | insertion adds exactly the one element |
| Records.InsertSorted | App.tsx:214 | inserting into a sorted list keeps it sorted |
| Records.SortBy | App.tsx:214 | the sort is a sorted permutation in which the elements with equal keys keep their input order |
| Records.InsertWithKey | App.tsx:214 | inserting an element puts it before every element with the same key |
| Records.Column | App.tsx:212-214 | a column holds exactly the containers of its stage; planning sorted by end date, missing as empty, containers with equal end dates in list order |
| Records.OfStatusMembers | App.tsx:213 | a container is in a stage's list exactly when it has that status |
| Records.ColumnMembers | App.tsx:212-214 | a container is in a column exactly when it has the column's status |
| Records.StagesPartition | App.tsx:212-214 | the three stage lists together are exactly the list |
| Records.ColumnsPartition | App.tsx:212-214 | the three columns together are exactly the containers |
| Records.ColumnsCount | App.tsx:212-214 | the three columns together hold as many cards as there are containers |
| Register.ActualsOf | components/RegisterModal.tsx:28-33 | the shipped-quantity slots are always three |
| Register.InitForm | components/RegisterModal.tsx:26-45 | three slots, and the extras are exactly the container's extra items |
| Register.InitFormFields | components/RegisterModal.tsx:28-42 | slot `i` is the `i`-th planned item's shipped quantity or empty; extras in order; pickup is the stored date's day part, or today when none is stored; arrival is today on receipt, otherwise the stored forecast's day part, or empty |
| Register.OpenedDays | components/RegisterModal.tsx:37-40 | a stored `day + time` opens as `day`: the pickup always, the arrival forecast in shipment mode |
| Register.SetActual | components/RegisterModal.tsx:49-53 | only slot `index` changes, and holes a longer index opens are empty |
| Register.SetActualThenRead | components/RegisterModal.tsx:49-53 | after the change slot `index` reads the value and every other slot reads as before |
| Register.ChangeActual | components/RegisterModal.tsx:49-53 | only the shipped-quantity slots of the form change |
| Register.AddExtra | components/RegisterModal.tsx:55-60 | one blank extra is appended and everything else is kept |
| Register.RemoveAt | components/RegisterModal.tsx:62-67 | exactly the item at the index goes, the rest keep their order |
| Register.RemoveAddedExtra | components/RegisterModal.tsx:55-67 | removing the extra just added restores the list |
| Register.RemoveAtMultiset | components/RegisterModal.tsx:62-67 | the removed item and the rest are exactly the list |
| Register.RemoveExtra | components/RegisterModal.tsx:62-67 | only the extras change, by removing the indexed one |
| Register.EditExtra | components/RegisterModal.tsx:69-80 | the field takes the value; a quantity edit also sets the shipped quantity; nothing else changes |
| Register.ChangeExtra | components/RegisterModal.tsx:69-80 | only the indexed extra changes |
| Register.EditsKeepExtras | components/RegisterModal.tsx:55-80 | adding, removing and editing keep every extra flagged and showing its quantity, unless a shipped quantity is blanked by hand |
| Register.OpenedExtrasWellFormed | components/RegisterModal.tsx:42 | the extras a decoded container opens with are well formed |
| Register.SubmitStatus | components/RegisterModal.tsx:24 | submitting in receive mode saves to the yard, otherwise to transit |
| Register.LegacyActuals | RegisterModal.tsx:24-43 | three slots; with items, slot `i` is the `i`-th item's shipped quantity, extras included, or empty; with none, piece `i` of the shipped text split on the bar separator, or empty past the last piece |
| Register.LegacyJoinedTwo | RegisterModal.tsx:35-43 | with no items, two pieces fill the first two slots and the third is empty |
| Register.LegacyInit | RegisterModal.tsx:23-52 | the older form has three slots and no extras; pickup is the stored date's day part or today, and arrival the stored forecast's day part or empty |
| Register.SplitBarCons | RegisterModal.tsx:37 | the first bar separator (space, bar, space) ends the first piece |
| Register.LegacyJoinedRoundTrip | RegisterModal.tsx:35-43 | with no items, bar-free pieces of the shipped text joined by the bar separator come back slot by slot |
| Register.LegacyCountsExtras | RegisterModal.tsx:29-34 | the older form fills slots from extras too, where the current form skips them |
| Register.IsEditMode | RegisterModal.tsx:21 | edit mode is exactly the card's edit action, that is transit |
| Register.Divergent | RegisterModal.tsx:169 | a divergence is flagged only on a slot that exists |
| Register.DivergentOnOpen | RegisterModal.tsx:178 | on opening, a slot whose shipped quantity differs from the description is flagged |
| Details.FormatDate | components/DetailsModal.tsx:12-16 | empty prints "N/D", anything else prints with `/` |
| Details.FormatIsoDate | components/DetailsModal.tsx:14-15 | `YYYY-MM-DD`, with or without a time, prints `DD/MM/YYYY` |
| Details.FormatIsoDateFields | components/DetailsModal.tsx:14-15 | the printed date splits into the day, month and year fields |
| Details.FormatShortDate | components/DetailsModal.tsx:14-15 | a date with two fields prints "undefined" for the day |
| Details.OrDefault | components/DetailsModal.tsx:58 | a filled value shows itself, an empty one the fallback |
| Details.DetailsOf | components/DetailsModal.tsx:21-88 | the label decodes to the status; "PENDENTE" and "Normal" fill gaps; programmed and extras partition the items |
| Details.DetailsOfDecoded | components/DetailsModal.tsx:21-46 | on a decoded row the view lists the planned slots and decoded extras, and shows a written status text as itself |

## Left out

- Network requests, toast timers, `localStorage`, React state and effects, and DOM form validation are not modelled. The payloads are values, and the store that applies them is a function.
- `JSON.parse` and `JSON.stringify` are function parameters. `Records.SaveThenDecodeExtras` takes the JSON round-trip law as its precondition.
- The clock is a parameter: "today" is a day number in the card and a date text in the shipment form.
- Time zones and hours are not modelled. A `Date` is reduced to its calendar day, and the noon and midnight `getTime` values are derived from it.
- Floating point is `real`: there is no rounding, no `toFixed` display and no `NaN` arithmetic beyond the `|| 0` and `isNaN` rules. `parseFloat` reads an optional sign, digits and a fraction, with no exponent or `Infinity`.
- Characters are ASCII for white space, case and digits. `localeCompare` is ordinal code-point order.
- Records.Column: the sort key is compared in ordinal order, not locale order.
- Records.CreateThenDecode: the "Total M3" cell is written but never read back by the decoder, so it is not part of the round trip.
- Records.SaveThenDecodeItem: requires the slots to be filled from the front. `Records.SaveAcrossGap` shows what happens otherwise.
- Dashboard.ComputeStats: the rows come in first-appearance order. JavaScript's `Object.values` puts integer-like keys first, and that order is not modelled.
- Dashboard.ComputeStats: `summary` is a plain object, so a description equal to a name inherited from `Object.prototype` (`constructor`, `toString`, `__proto__`, ...) finds a truthy value, makes no row, and its quantities are lost (`__proto__` also replaces the prototype). The model gives every description its own row, because objects with prototypes are not modelled.
- Numbers.ParseInt: the `0x` prefix that `parseInt` reads as hexadecimal is not modelled; such text reads as 0.
- Calendar.NewDate: every year has its days. JavaScript turns a time beyond ±8.64e15 ms from 1970 into the Invalid Date, and that limit is not modelled.
- Calendar.ISOWeek: the week is computed on the local year itself. `Date.UTC` inside `getISOWeek` maps the years 0..99 to 1900..1999, and that shift is not modelled.
- Register.AddExtra: the new extra has `m3` empty. The source leaves `m3` out, so it is `undefined`.
- Records.DecodeExtras: when reading one entry of the parsed array throws, the source keeps the extras pushed before it. The model treats that case as a parse failure, with no extras.
- Numeric spreadsheet cells are taken as text. The `String(...)` conversions of numbers read from the sheet are not modelled.
- `PasswordModal.tsx` is an authentication gate and is not part of this model. `constants.ts` only supplies the catalogue measure used as an example.
- The colour and gradient choices of the cards and the automatic supplier selection on the dashboard are not modelled.

## Findings

| source | as written | input that shows it | evidently intended | confidence | as-written member | corrected member |
|---|---|---|---|---|---|---|
| ContainerCard.tsx:190 | the SEMANA ATUAL badge requires `!deviationType`, and every deviation value is a non-empty string | any planning container, e.g. planned 2024-01-01..2024-01-07 viewed on 2024-01-03 | show the badge when the deviation is `'none'` and today lies in the planning window | high (proved; not executed) | Card.SemanaAtualAsWritten | Card.SemanaAtual |
| components/ContainerCard.tsx:95-99 | the collect week compares ISO week number with calendar year | a planning container due 2024-12-30 (week 1 of 2025) viewed on 2024-01-03 (week 1 of 2024) is flagged and shows NA SEMANA (`Card.NaSemanaYearEarly`) | flag the container when its date lies in today's ISO week | high (proved; not executed) | Card.CollectWeekYearMismatch | Card.CollectWeekByIsoWeek |
| CreateModal.tsx:79 | the id suffix pairs the ISO week number with the calendar year | start date 2024-12-30 gets `W1/24`, the suffix of 2024-01-01, while its week is week 1 of 2025 | use the year that owns the ISO week, as the comment on line 78 says | high (proved; not executed) | CreateForm.YearSuffixMismatch | CreateForm.WeekSuffixConstantOverWeek |
