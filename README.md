# Software-project quality warehouse in Dafny

This project models the logic of a small business-intelligence warehouse for a
software company. The warehouse tracks projects, effort, defects and process
maturity (CMMI levels 2 to 4). The model has three parts:

- **The synthetic generator** (`simulacion_dwh.py`). It writes the dimensions
  Dim_Tiempo, Dim_Cliente, Dim_Empleado, Dim_Proceso_Interno and Dim_Proyecto,
  and the fact tables Fact_Trazabilidad_Esfuerzo and Fact_Defectos_Calidad.
  - The calendar dimension is a pure function over a consecutive-day horizon.
  - The project, effort and defect sections are methods with loop invariants
    that append to growing sequences and number the records 1, 2, 3, …
  - Each numpy draw is an input record, constrained to the range numpy can
    return. Every property holds for all such draws.
- **The dashboard's deterministic defect predictor** (`predecir_defectos` in
  `app.py`) and the bounds of the widgets that feed it.
- **The SQLite migration** (`migrar_a_sqlite.py`). It covers the rule that
  names a table after its CSV file, and the three views. The views are pure
  functions over sequences of rows:
  - inner joins pair every row with every matching row;
  - GROUP BY is a generic group-count-sum (`Aggregation`).

Units: hours are kept in hundredths and money in centavos, the two decimals
the generator rounds to. Defect rates are given per 1000 hours (5, 10, 20).

Files:

| file | module | content |
|---|---|---|
| calendar.dfy | Calendar | Gregorian dates, `timedelta` addition, YYYYMMDD keys, day numbers, weekday, quarter |
| text.dfy | Text | decimal rendering of ids in names like `Cliente_3`; Python's `str.replace` |
| dimensions.dfy | Dimensions | entity datatypes; Dim_Tiempo, Dim_Cliente, Dim_Empleado, Dim_Proceso_Interno |
| simulation.dfy | Simulation | generator's defect predictor; project, effort and defect loops |
| predictor.dfy | Predictor | `predecir_defectos` of the dashboard |
| aggregation.dfy | Aggregation | GROUP BY with COUNT and SUM |
| tables.dfy | TableNames | CSV file to table name rule |
| migration.dfy | Migration | Vista_Calidad_Defectos, Vista_Desempeño_Proyectos, Vista_Balanced_Scorecard |

## Model

| member | source | states |
|---|---|---|
| Calendar.DaysInMonth | simulacion_dwh.py:11-13 | every month of the Gregorian calendar has 28 to 31 days |
| Calendar.NextDay | simulacion_dwh.py:11-13 | the day after a valid date is a valid date (daily `date_range` step) |
| Calendar.AddDays | simulacion_dwh.py:221 | `date + timedelta(days=k)` of a valid date is a valid date |
| Calendar.DayNumber | simulacion_dwh.py:246 | the day count since 0001-01-01 is non-negative |
| Calendar.DayOfWeek | simulacion_dwh.py:55 | pandas `dayofweek` lies in 0..6 |
| Calendar.DateKey | simulacion_dwh.py:48 | `int(strftime('%Y%m%d'))`; Calendar.DateKeyRoundTrip proves Calendar.DecodeKey inverts it on every valid date, and Calendar.KeyIncreasesByOneDay that it grows day by day |
| Calendar.DecodeKey | simulacion_dwh.py:48 | reads year, month and day back out of a YYYYMMDD key; the inverse of Calendar.DateKey by Calendar.DateKeyRoundTrip |
| Calendar.QuarterOfMonth | simulacion_dwh.py:52 | the quarter is 1..4 and the month lies among that quarter's three months |
| Calendar.Quarter | simulacion_dwh.py:52 | pandas `dt.quarter`; Calendar.QuarterOfMonth proves it lies in 1..4 and that the month is one of that quarter's three months |
| Calendar.DateKeyRoundTrip | simulacion_dwh.py:48 | the YYYYMMDD key of a valid date decodes back to the same year, month and day |
| Calendar.KeyIncreasesByOneDay | simulacion_dwh.py:48 | the key of the next day is larger |
| Calendar.DayNumberOfNextDay | simulacion_dwh.py:11-13 | the next day has day number plus one |
| Calendar.YearLengthFromDays | simulacion_dwh.py:11-13 | the days before year y+1 are those before y plus y's length (365 or 366, by the leap rule) |
| Calendar.AddDaysCompose | simulacion_dwh.py:221 | adding a days and then b days is adding a + b days |
| Calendar.DayNumberOfAddDays | simulacion_dwh.py:246 | adding k days moves the day number forward by exactly k, so `(cierre - creacion).days` is k |
| Calendar.AddDaysKeyIncreasing | simulacion_dwh.py:47-48 | along consecutive days the keys strictly increase |
| Calendar.AddDaysWithinMonth | simulacion_dwh.py:221 | adding days that stay inside the month only moves the day field |
| Calendar.AddDaysWholeMonth | simulacion_dwh.py:11-13 | the length of a month moves from its first day to the first of the next month |
| Calendar.AddDaysToMonthStart | simulacion_dwh.py:11-13 | from January 1st, the days before month m reach the first of m |
| Calendar.AddDaysWholeYear | simulacion_dwh.py:11-13 | the length of a year moves from January 1st to the next January 1st |
| Calendar.HorizonDate | simulacion_dwh.py:9-13 | every day of the horizon starting 2024-01-01 is a valid date |
| Calendar.HorizonKeysIncreasing | simulacion_dwh.py:47-48 | later horizon days have strictly larger keys |
| Calendar.HorizonWeekday | simulacion_dwh.py:55 | horizon day i falls on weekday i mod 7 (2024-01-01 is a Monday) |
| Calendar.HorizonShift | simulacion_dwh.py:221 | k days after horizon day i is horizon day i + k, k day numbers later |
| Calendar.HorizonLandmarks | simulacion_dwh.py:10-13 | days 365, 366, 374 and 424 are 2024-12-31, 2025-01-01, 2025-01-09 and 2025-02-28 |
| Calendar.HorizonYear2024 | simulacion_dwh.py:10-11 | the first 366 horizon days are the days of 2024 |
| Text.DigitChar | simulacion_dwh.py:65 | a digit renders as a decimal digit character |
| Text.DecimalString | simulacion_dwh.py:65 | `f'{n}'` is a non-empty string of decimal digits |
| Text.DecimalRoundTrip | simulacion_dwh.py:65 | reading the rendered digits back gives the number |
| Text.ReplaceAll | migrar_a_sqlite.py:29 | Python's `str.replace`, scanning left to right over non-overlapping occurrences; Text.ReplaceAllAbsent, Text.RemoveOnlySuffix and Text.ReplaceCharRemovesIt state its result in the cases the source uses |
| Text.LabelInjective | simulacion_dwh.py:65 | names built as prefix + number are equal only for equal numbers |
| Text.ReplaceAllAbsent | migrar_a_sqlite.py:29 | `replace` leaves a string without the pattern unchanged |
| Text.RemoveOnlySuffix | migrar_a_sqlite.py:29 | when the pattern occurs only as the suffix, `replace(pat, '')` strips exactly that suffix |
| Text.ReplaceCharRemovesIt | simulacion_dwh.py:107 | replacing a character by another keeps the length, turns each occurrence into the new character, keeps every other character in place, and leaves no occurrence behind |
| Dimensions.TimeDimension | simulacion_dwh.py:47-48 | Dim_Tiempo has 425 rows and row i carries the key of horizon day i |
| Dimensions.TimeRowOf | simulacion_dwh.py:47-55 | one Dim_Tiempo row from its date; its key, quarter, year and `es_laboral` columns are stated by Dimensions.TimeKeyDecodes, Dimensions.QuarterContainsMonth, Dimensions.TimeDimensionSpan and Dimensions.BusinessDaysFollowTheWeek |
| Dimensions.TimeKeysStrictlyIncreasing | simulacion_dwh.py:47-48 | `id_tiempo` strictly increases down the table, so it is unique |
| Dimensions.TimeKeyDecodes | simulacion_dwh.py:48 | `id_tiempo` decodes to the row's own date |
| Dimensions.BusinessDaysFollowTheWeek | simulacion_dwh.py:55 | `es_laboral` holds exactly on rows whose weekday is Monday to Friday |
| Dimensions.QuarterContainsMonth | simulacion_dwh.py:52 | `trimestre_num` is 1..4 and contains the row's month |
| Dimensions.TimeDimensionSpan | simulacion_dwh.py:47-53 | the table runs from 2024-01-01 to 2025-02-28, and `año` is 2024 on the first 366 rows and 2025 after |
| Dimensions.ClientDimension | simulacion_dwh.py:63-68 | eight clients with ids 1..8 in order, each with its drawn sector and contract |
| Dimensions.ClientNamesDistinct | simulacion_dwh.py:65 | client names are pairwise distinct |
| Dimensions.EveryRoleHasSalary | simulacion_dwh.py:74-82 | every role has a positive entry in `salarios` and belongs to `roles` |
| Dimensions.HourlyRate | simulacion_dwh.py:90 | `salario_hora_base` is `salarios[rol]`, which exists and is positive |
| Dimensions.EmployeeDimension | simulacion_dwh.py:83-90 | ten employees with ids 1..10, each with its drawn role and that role's rate |
| Dimensions.RateOf | simulacion_dwh.py:168 | the rate lookup finds a value exactly when some employee row has the id, and returns the rate of the FIRST row with that id (`.iloc[0]`) |
| Dimensions.RateOfDense | simulacion_dwh.py:168 | with dense ids, the lookup of id returns row id - 1's rate |
| Dimensions.ProcessDimension | simulacion_dwh.py:97-106 | seven processes with ids 1..7, all 'Obligatorio' |
| Dimensions.ProcessRow | simulacion_dwh.py:106-107 | one Dim_Proceso_Interno row with its `documentacion_link`; the link's content is stated by Dimensions.DocLinksHaveNoSpaces |
| Dimensions.DocLinksHaveNoSpaces | simulacion_dwh.py:107 | each `documentacion_link` is the docs prefix followed by the process name with every space turned into '_' and every other character kept, so no space is left |
| Simulation.HigherMaturityFewerExpectedDefects | simulacion_dwh.py:26-34 | for positive effort the expected count is strictly lower at maturity 4 than 3 and at 3 than 2; other levels rate like 2 |
| Simulation.DefectRatePerMille | simulacion_dwh.py:26-31 | `factor_base` per 1000 hours; ordered by Simulation.HigherMaturityFewerExpectedDefects and equal to the dashboard's table by Predictor.RateTablesAgree |
| Simulation.ExpectedDefectsPerMille | simulacion_dwh.py:34 | `N_esperado` scaled by 1000; compared across maturities by Simulation.HigherMaturityFewerExpectedDefects and with the dashboard's prediction by Predictor.PredictionTruncatesGeneratorMean |
| Simulation.PredictDefectsRayleigh | simulacion_dwh.py:38-41 | the result is the draw or 5, at least 5 and at least the draw (`max(5, draw)`) |
| Simulation.BudgetBounds | simulacion_dwh.py:124-126 | the budget lies between 400 and 600 per hour of estimated effort |
| Simulation.BuildProjects | simulacion_dwh.py:113-138 | 15 projects with ids 1..15; each takes its client id from the drawn client row, its drawn effort in [200, 2000), status, type and maturity in {2, 3, 4}, budget effort × drawn rate, and name `Sistema_i` |
| Simulation.ProjectNamesDistinct | simulacion_dwh.py:131 | project names are pairwise distinct |
| Simulation.EffortRecordWellFormed | simulacion_dwh.py:159-182 | an effort record is dated in 2024, names an existing employee and a process 1..7, has 0.5 to 8.5 hours and costs hours times the employee's rate |
| Simulation.EffortRecordOf | simulacion_dwh.py:161-182 | one effort record from its draws; Simulation.EffortRecordWellFormed proves it satisfies the table's schema, with cost = hours × the employee's rate |
| Simulation.ProjectEffortRecords | simulacion_dwh.py:159-183 | the inner loop of one project yields one record per drawn date |
| Simulation.EffortCountOfOneProject | simulacion_dwh.py:174 | records that all carry one project id count only for that project |
| Simulation.ProjectEffortRecordsFacts | simulacion_dwh.py:159-183 | one project's records are numbered on from the first id, well formed, and count only for that project |
| Simulation.ProjectEffortRecordsNumbered | simulacion_dwh.py:159-183 | one project's records carry consecutive ids from the first id and are each well formed |
| Simulation.ProjectEffortRecordsCounted | simulacion_dwh.py:159-183 | one project's records count as many as its draws for that project and none for any other |
| Simulation.EffortCountAppend | simulacion_dwh.py:172 | counting a project's records over a concatenation adds the counts |
| Simulation.AppendProjectEffort | simulacion_dwh.py:159-183 | the inner loop appends exactly that project's records, numbered on from the current length |
| Simulation.EffortTableExtend | simulacion_dwh.py:146-183 | appending a numbered, well-formed block of project p's records extends the table invariant from p to p + 1 projects |
| Simulation.EffortTableStep | simulacion_dwh.py:148-183 | one outer iteration keeps the table invariant |
| Simulation.EffortTable | simulacion_dwh.py:146-185 | the whole effort table: the blocks of Simulation.ProjectEffortRecords in project order, each numbered on from the records before it; Simulation.BuildEffortFacts computes exactly it |
| Simulation.EffortTableSnoc | simulacion_dwh.py:148-183 | the table of the first p + 1 projects is that of the first p followed by project p's block |
| Simulation.BuildEffortFacts | simulacion_dwh.py:146-185 | `id_registro` runs 1, 2, … across projects; every record is well formed; each project gets as many records as its drawn count, 250..1499 if delivered and 50..499 otherwise; and the result is exactly Simulation.EffortTable, so each project's records are the block its draws produce |
| Simulation.NonLeadIdsMembers | simulacion_dwh.py:209 | an id is in `desarrolladores` exactly when some employee row with that id is not a project lead |
| Simulation.NonLeadIds | simulacion_dwh.py:209 | `desarrolladores` in row order; Simulation.NonLeadIdsMembers proves an id is in it exactly when a non-lead row carries it |
| Simulation.WindowSize | simulacion_dwh.py:213 | `int(esfuerzo / 8)`: for non-negative effort the number n of whole 8-hour days in it (8n ≤ effort < 8n + 8), truncating toward zero for negative effort |
| Simulation.NonLeadIdsArePool | simulacion_dwh.py:209 | with dense ids, every id in `desarrolladores` names a non-lead employee row |
| Simulation.DefectDates | simulacion_dwh.py:239-246 | both defect keys are Dim_Tiempo keys; the report key is in 2024 and the close key is later, at most 2025-01-09; the day difference is variance + 5, and the variance is in [-4, 4] |
| Simulation.ReportDay | simulacion_dwh.py:239 | a report day of the fact period has a 2024 Dim_Tiempo key that decodes to its date |
| Simulation.CloseDay | simulacion_dwh.py:221 | a close 1 to 9 days after a report lands on a later Dim_Tiempo day no later than 2025-01-09, that many day numbers later |
| Simulation.CloseDayDate | simulacion_dwh.py:221 | adding the delay to the report date gives the close day of the horizon, and their day numbers differ by the delay |
| Simulation.CloseDayKey | simulacion_dwh.py:221 | the close day's key is a Dim_Tiempo key after the report key, no later than 20250109, that decodes to the close date |
| Simulation.DefectKeysReportedAndClosed | simulacion_dwh.py:218-246 | the keys and variance computed for a defect satisfy the report and close relation |
| Simulation.DefectKeys | simulacion_dwh.py:239-246 | the report key, the close key `delay` days later and the variance `delay - 5`; Simulation.DefectKeysReportedAndClosed and Simulation.DefectDates prove the variance is the day difference minus 5 |
| Simulation.LatestCloseKey | simulacion_dwh.py:221 | no horizon day up to 2025-01-09 has a key after 20250109 |
| Simulation.DefectRecordWellFormed | simulacion_dwh.py:216-248 | a defect names its project, is reported and closed as above, has a non-lead responsible, a process 1..7, at least 0.25 net hours and count 1 |
| Simulation.DefectRecordOf | simulacion_dwh.py:218-248 | one defect record from its draws, net hours `max(0.25, draw)`; Simulation.DefectRecordWellFormed proves it satisfies the table's schema |
| Simulation.ProjectDefectRecords | simulacion_dwh.py:216-249 | the inner loop of one project yields one record per defect draw |
| Simulation.DefectCountOfOneProject | simulacion_dwh.py:237 | defects that all carry one project id count only for that project |
| Simulation.DefectCountAppend | simulacion_dwh.py:235 | counting a project's defects over a concatenation adds the counts |
| Simulation.ProjectDefectRecordsFacts | simulacion_dwh.py:216-249 | one project's defects are numbered on from the first id, well formed, and count only for that project |
| Simulation.ProjectDefectRecordsNumbered | simulacion_dwh.py:216-249 | one project's defects carry consecutive ids from the first id and are each well formed |
| Simulation.ProjectDefectRecordsCounted | simulacion_dwh.py:216-249 | one project's defects count as many as its draws for that project and none for any other |
| Simulation.AppendProjectDefects | simulacion_dwh.py:216-249 | the inner loop appends exactly `N_defectos` records of that project, numbered on from the current length |
| Simulation.DefectTableExtend | simulacion_dwh.py:196-249 | appending project p's numbered, well-formed block extends the table invariant from p to p + 1 projects |
| Simulation.DefectTableStep | simulacion_dwh.py:196-249 | one outer iteration keeps the table invariant |
| Simulation.DefectTable | simulacion_dwh.py:190-249 | the whole defect table: the blocks of Simulation.ProjectDefectRecords in project order, each numbered on from the defects before it; Simulation.BuildDefectFacts computes exactly it |
| Simulation.DefectTableSnoc | simulacion_dwh.py:196-249 | the table of the first p + 1 projects is that of the first p followed by project p's defects |
| Simulation.BuildDefectFacts | simulacion_dwh.py:190-249 | `id_defecto` runs 1, 2, … across projects; every defect is well formed; each project gets exactly its `N_defectos`, at least 5; and the result is exactly Simulation.DefectTable over `desarrolladores`, so each project's defects are the block its draws produce |
| Predictor.TruncDiv | app.py:93 | `int()` of a quotient truncates toward zero: floor for non-negative, ceiling for negative dividends |
| Predictor.PredictDefects | app.py:89-93 | for non-negative effort the result is the non-negative integer n with n ≤ effort·factor < n + 1; the negative case is symmetric |
| Predictor.Factor | app.py:92 | `{4: 0.005, 3: 0.01}.get(madurez, 0.02)` per 1000 hours; Predictor.RateTablesAgree gives its value at every maturity |
| Predictor.RateTablesAgree | app.py:92 | the factor is 0.005 at maturity 4, 0.01 at 3 and 0.02 otherwise, the generator's table |
| Predictor.PredictionTruncatesGeneratorMean | app.py:92-93 | the prediction is the generator's Poisson mean rounded down |
| Predictor.PredictAsIntegerDivision | app.py:92-93 | for non-negative effort the prediction is effort / 200, / 100 or / 50 by maturity |
| Predictor.FloorUnique | app.py:93 | the n with n·b ≤ a < (n + 1)·b is a / b |
| Predictor.MaturityMonotone | app.py:92-93 | predict(e, 4) ≤ predict(e, 3) ≤ predict(e, 2), and any other maturity predicts like 2 |
| Predictor.EffortMonotone | app.py:93 | more effort never predicts fewer defects |
| Predictor.Examples | app.py:92-93 | (1500, 3) → 15, (1500, 4) → 7, (800, 99) → 16, (1500, 2) → 30 |
| Predictor.WidgetRange | app.py:220-226 | every widget input predicts 0 to 200 defects, and both ends are reached |
| Aggregation.GroupsFor | migrar_a_sqlite.py:47 | the group of each listed key holds that key's count and sum |
| Aggregation.GroupBy | migrar_a_sqlite.py:51 | no group is empty |
| Aggregation.DistinctKeysSpec | migrar_a_sqlite.py:51 | the grouping keys are pairwise distinct and are exactly the keys that occur |
| Aggregation.AbsentKey | migrar_a_sqlite.py:47 | a key that does not occur counts and sums to zero |
| Aggregation.PresentKey | migrar_a_sqlite.py:47 | a key that occurs counts at least one row |
| Aggregation.CountOf | migrar_a_sqlite.py:47 | COUNT of the rows of one key; Aggregation.AbsentKey and Aggregation.PresentKey prove it is zero exactly when the key does not occur, Aggregation.CountSumAppend that it adds up over a concatenation, Aggregation.GroupBySpec that it is each group's count |
| Aggregation.SumOf | migrar_a_sqlite.py:60 | SUM of the measures of one key; Aggregation.AbsentKey proves it is zero for an absent key, Aggregation.CountSumAppend that it adds up over a concatenation, Aggregation.GroupBySpec that it is each group's total |
| Aggregation.GroupBySpec | migrar_a_sqlite.py:51 | one group per occurring key, none twice; each counts and sums exactly the rows of its key |
| Aggregation.GroupsForAppendRow | migrar_a_sqlite.py:47 | one more row adds one to the count column and its measure to the sum column when its key is listed |
| Aggregation.GroupsForCover | migrar_a_sqlite.py:47 | over distinct keys covering all rows, counts add up to the row count and sums to the total |
| Aggregation.GroupByTotals | migrar_a_sqlite.py:47 | no row is lost or counted twice: COUNT adds up to the number of rows, SUM to the total measure |
| Aggregation.CountSumAppend | migrar_a_sqlite.py:47 | count and sum over a concatenation add up |
| TableNames.TableNameOfStem | migrar_a_sqlite.py:29 | a file `stem.csv` with no '.' in the stem and no rename entry loads into table `stem` |
| TableNames.TableName | migrar_a_sqlite.py:29 | `nombres_tablas.get(archivo, archivo.replace('.csv', ''))`; TableNames.ArchiveTables gives its value on each of the seven files |
| TableNames.StemFile | migrar_a_sqlite.py:29 | each listed file other than the effort base file loads into its name without '.csv' |
| TableNames.ArchiveTables | migrar_a_sqlite.py:11-29 | the seven files load into Dim_Tiempo, …, Fact_Trazabilidad_Esfuerzo (without _BASE), Fact_Defectos_Calidad |
| TableNames.TablesDistinct | migrar_a_sqlite.py:29-34 | the seven table names are distinct, so no load replaces another file's table |
| Migration.ProjectsWithId | migrar_a_sqlite.py:50 | the join partners of a defect are exactly the projects with its `id_proyecto` |
| Migration.DefectJoin | migrar_a_sqlite.py:49-50 | the inner join pairing each defect with every project of its `id_proyecto`; Migration.DefectJoinKeys and Migration.DefectJoinSize state which rows it holds and how many |
| Migration.QualityRows | migrar_a_sqlite.py:45-51 | one view row per GROUP BY group, with COUNT and AVG; Migration.QualityRowsSpec states the rows against the joined input |
| Migration.QualityView | migrar_a_sqlite.py:43-51 | Vista_Calidad_Defectos; Migration.QualityViewDistinct, Migration.QualityViewSound, Migration.QualityViewComplete, Migration.QualityViewMeasures and Migration.QualityViewTotal state it |
| Migration.DefectJoinKeys | migrar_a_sqlite.py:49-50 | a group key occurs in the join exactly when some defect and some project with its id produce it |
| Migration.LastDefectKeys | migrar_a_sqlite.py:50 | one defect's joined rows carry a key exactly when some project with its project id produces that key |
| Migration.QualityRowsSpec | migrar_a_sqlite.py:45-51 | over any joined rows: one view row per occurring key, none twice, each counting its rows (at least one) with their mean as MTTR |
| Migration.QualityViewDistinct | migrar_a_sqlite.py:51 | no (project name, maturity, severity) has two rows |
| Migration.QualityViewSound | migrar_a_sqlite.py:46-51 | every row's group is that of some defect joined with its project |
| Migration.QualityViewComplete | migrar_a_sqlite.py:46-51 | every defect whose project exists falls in a row with the project's name and maturity and its severity |
| Migration.QualityViewMeasures | migrar_a_sqlite.py:47-48 | `Total_Defectos` is the number of joined defects of the group, at least one, and the MTTR is the mean of their `tiempo_neto_horas` |
| Migration.MeanTimesCount | migrar_a_sqlite.py:48 | the mean times the group size gives back the group's sum |
| Migration.Mean | migrar_a_sqlite.py:48 | AVG over a group; Migration.MeanTimesCount proves the mean times the group size is the group's sum, and Migration.QualityViewMeasures that the MTTR column is this mean of the joined defects' hours |
| Migration.QualityRowOf | migrar_a_sqlite.py:46-48 | one SELECT row of Vista_Calidad_Defectos; Migration.QualityViewMeasures states its `Total_Defectos` and MTTR columns, Migration.QualityViewSound and Migration.QualityViewComplete its grouping columns |
| Migration.AtMostOneProjectWithId | migrar_a_sqlite.py:50 | with unique project ids a defect has one join partner if its project exists and none otherwise |
| Migration.DefectJoinSize | migrar_a_sqlite.py:49-50 | with unique project ids the join has one row per defect whose project exists |
| Migration.QualityViewTotal | migrar_a_sqlite.py:47-50 | with unique project ids, `Total_Defectos` adds up to the number of defects whose project exists |
| Migration.FinancialStatusSpec | migrar_a_sqlite.py:61 | 'Sobre Costo' exactly when the cost exceeds the budget, 'En Presupuesto' exactly when it does not, equality included |
| Migration.FinancialStatus | migrar_a_sqlite.py:61 | the CASE expression; Migration.FinancialStatusSpec states both directions on every view row |
| Migration.ProjectJoin | migrar_a_sqlite.py:62-64 | one project's rows of both inner joins; Migration.ProjectJoinKeys and Migration.ProjectJoinCost state their keys, existence and cost |
| Migration.PerformanceJoin | migrar_a_sqlite.py:62-64 | both inner joins over all projects; Migration.PerformanceJoinAppend and Migration.PerformanceJoinAt reduce it to each project's own rows |
| Migration.PerformanceView | migrar_a_sqlite.py:55-65 | Vista_Desempeño_Proyectos; Migration.PerformanceViewPresence, Migration.PerformanceViewCost and Migration.FinancialStatusSpec state it |
| Migration.ClientsWithId | migrar_a_sqlite.py:64 | the join partners of a project are exactly the clients with its `id_cliente` |
| Migration.ProjectJoinKeys | migrar_a_sqlite.py:62-64 | a project's joined rows carry its columns and a matching client's name; they exist exactly when it has effort and its client exists |
| Migration.ProjectJoinRowKeys | migrar_a_sqlite.py:62-64 | every joined row of a project carries its id, name, status and budget and the name of a client with its client id |
| Migration.ProjectJoinNonEmpty | migrar_a_sqlite.py:62-64 | a project has joined rows exactly when it has an effort record and a client with its client id exists |
| Migration.OnlyClientWithId | migrar_a_sqlite.py:64 | with unique client ids a client is its id's only join partner |
| Migration.ProjectJoinCost | migrar_a_sqlite.py:60-64 | with its client found once, a project's joined rows sum to the cost of its effort records |
| Migration.PerformanceJoinOthers | migrar_a_sqlite.py:62-65 | rows of other projects never carry this project's id |
| Migration.PerformanceJoinAppend | migrar_a_sqlite.py:62 | the join of a concatenation of project tables is the concatenation of their joins |
| Migration.PerformanceJoinAt | migrar_a_sqlite.py:62-65 | with unique project ids, the rows keyed with a project's id are that project's own rows |
| Migration.PerformanceViewPresence | migrar_a_sqlite.py:62-65 | a project appears in the view exactly when it has effort records and its client exists (both joins are inner) |
| Migration.GroupOfJoinedProject | migrar_a_sqlite.py:62-65 | a project with joined rows has a group in the view |
| Migration.JoinedProjectOfGroup | migrar_a_sqlite.py:62-65 | a project with a group in the view has joined rows |
| Migration.PerformanceViewCost | migrar_a_sqlite.py:60-65 | with unique project and client ids, `Costo_Real_Actual` is the sum of `costo_imputado` over the project's effort records |
| Migration.PerformanceRowOf | migrar_a_sqlite.py:57-61 | one SELECT row of Vista_Desempeño_Proyectos; Migration.PerformanceViewCost states its `Costo_Real_Actual` and Migration.FinancialStatusSpec its `Estatus_Financiero` |
| Migration.BalancedScorecard | migrar_a_sqlite.py:69-77 | the scorecard has four rows, each value between 0 and 100 |
| Migration.ScorecardPerspectivesDistinct | migrar_a_sqlite.py:71-77 | Financiera, Clientes, Procesos and Aprendizaje each appear once |

## Left out

- I/O is not modelled: the CSV writes, `pd.read_csv`, `to_sql` with `if_exists='replace'`, the SQLAlchemy engine and `conn.execute`. The loader loop's `try`/`except` printing is also left out. The model gives each view's rows as a function of the tables' rows.
- The random draws are inputs. The Poisson, uniform, normal and weighted `choice` draws become draw records whose fields are constrained to numpy's ranges (randint's upper bound is exclusive). No distributional claim is made.
- Floating point is not modelled. Hours and money are exact integers in hundredths and centavos, so `round(..., 2)` is exact. AVG is an exact rational mean. The budget `esfuerzo * uniform(400, 600)` is taken at centavo-per-hour granularity.
- The locale- and library-dependent columns `day_name('es')`, `strftime('%b')` and the ISO week number are not modelled. Nor are the unused `duracion_dias`, `start_date` and `lideres`.
- Simulation.BuildDefectFacts requires a non-lead employee when there are projects. `np.random.choice` raises on an empty `desarrolladores`, and the source has no fallback.
- The close variance `varianza_cierre_esperado` is computed as the drawn delay minus 5. Simulation.DefectDates proves this equals the day-number difference of the two dates minus 5, which is what the source computes.
- Dim_Proyecto, the effort loop and the defect loop take the dimension tables as inputs. The whole script run, chaining them, is not a separate member.
- Migration.PerformanceViewPresence, Migration.PerformanceViewCost and Migration.QualityViewTotal assume unique project ids, and Migration.PerformanceViewCost also unique client ids. The generator guarantees this; with duplicate ids the SQL would merge or multiply rows.
- Migration.BalancedScorecard: the rows are literal constants. The contract states their number and range; their content is the definition itself.
- The per-project key of Vista_Desempeño_Proyectos keeps `id_proyecto`, which the SQL groups by but does not select.
- The Streamlit dashboard is not modelled (layout, charts, session state, the floating-point Rayleigh curve). Only `predecir_defectos` and its widget bounds are.
- `etl_carga.py`, `limpiar_db.py` and `ejecutar.py` are not part of this model. They do database loading, truncation and process orchestration.
- The defect floor is 5 (simulacion_dwh.py:41). `np.random.choice(desarrolladores)` raises on an empty pool, so an empty pool is a precondition rather than a modelled path. The budget `esfuerzo * uniform(400, 600)` has no margin factor, so budget ≥ cost is not claimed.
- The Poisson draw of each project is an input, so no relation between a project's defect count and its effort or maturity is modelled beyond the floor of 5; the mean `N_esperado` is stated and compared only in Simulation.HigherMaturityFewerExpectedDefects and Predictor.PredictionTruncatesGeneratorMean.
